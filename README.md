# Informal roster bookkeeping of roster-bot

roster-bot is a Discord bot that posts "Informal Roster (First 10 Only)"
sign-up messages with a Join and a Leave button. This revision of the bot
posts one roster when a user types `!roster` and one more on a repeating
timer. It keeps a process-wide map from each posted message's id to that
roster's record. The record holds the ordered member list, the channel id and
a creation time. A Join press adds the user at the tail unless they are
already listed or all 10 slots are taken. A Leave press removes the user, and
everyone below moves up one line. After each change the message is re-rendered
as 10 numbered slot lines.

The Dafny project models that bookkeeping:

- `members.dfy` (module `Members`): the member record, the 10-slot capacity,
  search by user id (`find` / `findIndex`) and removal of one entry
  (`splice(index, 1)`).
- `engine.dfy` (module `Engine`): Join and Leave on one member list. Each
  returns an `Outcome` in place of the reply text: `NotActive`, `AlreadyOn`,
  `Full`, `Added`, `NotOn` or `Removed`. The module also holds the lemmas
  that relate the two operations.
- `store.dfy` (module `Store`): the message-id map. It has pure transition
  functions (`PostRoster`, `StoreJoin`, `StoreLeave`, `Press`) and a run of
  any event sequence. The class `RosterStore` holds the map in a field. Its
  methods perform the same transitions in place and are proved against those
  functions.
- `render.dfy` (module `Render`): the slot-line loop of `buildRosterMessage`.
  It also has a reader, `ParseSlotLine`, that turns a rendered line back into
  its slot number and occupant. The round-trip lemmas use the reader to show
  what each line displays.

The handlers are `async`, and other events can run while one waits on
`send` (bot.js:51, 107) or `edit` (bot.js:79, 89). Each state change is still
atomic. In the button handler, the lookup, the checks and the `push` or
`splice` run with no `await` between them (bot.js:62-78, 62-88). In a post,
the `set` follows the `send` directly (bot.js:51-52, 107-108). Only the
re-render and the reply after a change can interleave with other events. The
model therefore treats each state change as one step.

Two points of bot.js that the model keeps:

- Posting under an id that is already tracked replaces the record, as
  `Map.set` does (bot.js:52, 108). No error is raised.
- The replies are the six branches of the button handler (bot.js:64, 73, 76,
  80, 86, 90). A press with any other button id on a tracked message gets no
  reply.

## Model

| member | source | states |
|---|---|---|
| `Members.IndexOfId` | bot.js:84-85 | Returns -1 exactly when no entry has the id. Otherwise it returns the first position holding that id, as `findIndex` does. `find` at line 71 is truthy exactly when the result is not -1. |
| `Members.RemoveAt` | bot.js:88 | `splice(index, 1)`: the list is one shorter. Entries before the index stay in place. Entries after it move up one position. The result is the old list as a multiset minus the removed entry. |
| `Members.RemoveAtUnique` | bot.js:84-88 | Removing an entry from a list with unique ids keeps the ids unique. The removed user's id no longer appears. |
| `Engine.JoinRoster` | bot.js:70-78 | The reply is `AlreadyOn` exactly when the id is already listed, even on a full roster. It is `Full` exactly when the id is new and 10 or more are listed. It is `Added` otherwise. A rejected join leaves the list unchanged. An accepted one appends the member at the tail and keeps earlier positions. The length never goes above 10 and ids stay unique. |
| `Engine.LeaveRoster` | bot.js:83-88 | The reply is `NotOn` exactly when the id is absent, and then nothing changes. Otherwise it is `Removed`: exactly the entry found by `findIndex` is removed, and the rest keep their relative order, shifting up one. Uniqueness is kept, and the user is then absent. |
| `Engine.IndexOfAppended` | bot.js:78 | After a fresh user is pushed, `findIndex` locates them at the tail. |
| `Engine.JoinThenLeave` | bot.js:78-88 | A fresh user's join followed by their leave restores the roster exactly. |
| `Engine.LeaveThenJoinGoesToTail` | bot.js:75-88 | A listed user who leaves and joins again is accepted. They land at the tail, behind everyone who stayed. |
| `Engine.JoinEachAppends` | bot.js:75-78 | Distinct users who join while there is room fill the slots in the order they pressed Join. |
| `Store.PostRoster` | bot.js:50-52 | Posting binds the new message id to an empty roster with the given channel and creation time. Every other record is unchanged, and the store invariant is kept. |
| `Store.StoreJoin` | bot.js:62-78 | The reply is `NotActive` exactly when the message id is untracked, and then the store is unchanged. Otherwise the join is applied to that message's roster. No id is added or dropped, every other record is untouched, and the invariant is kept. |
| `Store.StoreLeave` | bot.js:83-88 | The same as `StoreJoin`, for a leave. |
| `Store.Press` | bot.js:59-92 | The message is looked up before the button id is checked. A press on an untracked message gets "no longer active" whatever the button. `roster_join` and `roster_leave` go to join and leave. Any other button on a tracked message gets no reply and changes nothing. |
| `Store.Apply` | bot.js:46-108 | Routes an event: a post (bot.js:50-52, 106-108) goes to `PostRoster`, a button press (bot.js:59-92) to `Press`. Only a post adds a tracked message id, and nothing removes one. A press on an untracked message changes nothing. The invariant is kept. |
| `Store.Run` | bot.js:13-108 | Applies events in arrival order. Every message id tracked before stays tracked, and every posted id is tracked afterwards. |
| `Store.RunKeepsValid` | bot.js:59-92 | For every sequence of posts and button presses, every roster keeps at most 10 members and no repeated id. |
| `Store.FromStartupValid` | bot.js:13 | Starting from the empty map, the invariant holds after any sequence of events. |
| `Store.StoreJoinThenLeave` | bot.js:62-88 | On one message, a fresh user's join followed by their leave restores the whole store exactly, including every other message's record. |
| `Store.RosterStore.constructor` | bot.js:13 | The store starts empty and valid. |
| `Store.RosterStore.Post` | bot.js:106-108 | Updates the map in place as `PostRoster` says and keeps the invariant. |
| `Store.RosterStore.Join` | bot.js:70-81 | Updates the map in place and replies as `StoreJoin` says, keeping the invariant. |
| `Store.RosterStore.Leave` | bot.js:83-91 | Updates the map in place and replies as `StoreLeave` says, keeping the invariant. |
| `Store.RosterStore.HandlePress` | bot.js:59-92 | Dispatches a button press as `Press` says, keeping the invariant. |
| `Render.SlotLine` | bot.js:21-22 | Line i opens with the marker `**i.** `. It is exactly that marker when slot i is empty. When member i-1 exists it ends with that member's mention, `<@`, their id, `> | ` and their username. |
| `Render.HeaderRoundTrip` | bot.js:22 | The `**i.** ` marker of line i reads back as the number i. The rest of the line is left intact. |
| `Render.OccupantRoundTrip` | bot.js:22 | The mention of a member, their id, a bar and their username, reads back as exactly that member when the id is a snowflake. |
| `Render.SlotLineRoundTrip` | bot.js:20-22 | Line i reads back as slot i. It holds member i-1 when the roster has one and is blank otherwise. |
| `Render.RenderSlotLines` | bot.js:17-23 | The loop yields exactly 10 lines. Line j+1 is the slot line for position j+1. For snowflake ids, each line reads back as its number and its occupant, or as blank. |
| `Render.FreshRosterAllBlank` | bot.js:50-51 | A new roster is empty, so all 10 of its lines read back as blank. |
| `Render.LeaveShiftsLinesUp` | bot.js:88-89 | After a leave, the re-rendered lines above the vacated position are unchanged. Each line from there down shows the member who was one line lower. The tenth line of a roster that had at most 10 members is blank. |

## Left out

- The Discord client is not modelled: login, gateway intents, event dispatch, `channel.send`, `message.edit`, `interaction.reply` and `message.delete().catch`. These are calls into a library that is not part of this model. Message and channel ids appear as parameters. The modelled outcome is the branch taken, whether or not the reply is delivered. If `interaction.message.edit` rejects (bot.js:79, 89), the `push` or `splice` has already happened but no reply is sent.
- The `messageCreate` filter is not modelled: ignoring bot authors and matching exactly `!roster`. Neither is the `isButton` check. Both are event-routing glue. `RosterStore.Post` and `RosterStore.HandlePress` start where those filters have passed.
- The embed payload is not modelled: title, description framing, colour, and the two button builders. Only the 10 slot lines are modelled. Joining them with newlines is left out too.
- The creation date and time strings are not modelled. They come from locale- and timezone-dependent library calls that read the clock at render time. The `createdAt` argument of `buildRosterMessage` is never read, and `createdAt` enters the model only as a number stored in the record.
- The 30-second `setInterval` auto-post and the channel fetch are not modelled. This is timer and I/O plumbing. Each timer tick is a `Posted` event.
- Interleavings at the awaited `send` and `edit` calls are not modelled. Another event can change the roster between a change and its re-render, so the `edit` can show a newer roster than the one the reply refers to. The model covers only the state changes, which have no `await` inside them.
- The map is never pruned, so it grows without bound. That growth is not represented.
- Render.OccupantRoundTrip: holds only for ids made of decimal digits, as Discord snowflakes are. For other ids the mention text can be ambiguous.
- Render.SlotLineRoundTrip: states the read-back only for rosters whose ids are snowflakes, for the same reason.
- Render.RenderSlotLines: promises the read-back only for snowflake ids. The exact line contents are promised for every roster.
- Render.LeaveShiftsLinesUp: is stated only for snowflake ids, for the same reason.
