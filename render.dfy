/**
 * The slot lines of the roster embed: `buildRosterMessage` writes exactly ten
 * numbered lines, `**i.** ` followed by `<@id> | username` when slot i is
 * taken and by nothing otherwise.
 *
 * ParseSlotLine reads such a line back; the round-trip lemma shows that each
 * rendered line says which slot it is and who, if anyone, holds it.
 */
module Render {
  import opened Members
  import opened Engine

  /** What a slot line shows: its 1-based number and its occupant, if any. */
  datatype SlotView = SlotView(number: nat, occupant: Option<Member>)

  predicate IsDigit(c: char)
  {
    '0' <= c <= '9'
  }

  predicate AllDigits(s: string)
  {
    forall i :: 0 <= i < |s| ==> IsDigit(s[i])
  }

  /** Discord user ids are snowflakes: strings of decimal digits. */
  predicate SnowflakeIds(r: seq<Member>)
  {
    forall i :: 0 <= i < |r| ==> AllDigits(r[i].id)
  }

  function DigitChar(d: nat): (c: char)
    requires d < 10
    ensures IsDigit(c)
  {
    ('0' as int + d) as char
  }

  function DigitValue(c: char): (d: nat)
    requires IsDigit(c)
    ensures d < 10 && DigitChar(d) == c
  {
    c as int - '0' as int
  }

  /** The decimal numeral of `n` as a template literal prints it. */
  function NatToDecimal(n: nat): (s: string)
    ensures |s| >= 1 && AllDigits(s)
    ensures n >= 10 ==> |s| >= 2
    decreases n
  {
    if n < 10 then [DigitChar(n)] else NatToDecimal(n / 10) + [DigitChar(n % 10)]
  }

  /** The value of a string of decimal digits. */
  function DecimalValue(s: string): nat
    requires AllDigits(s)
    decreases |s|
  {
    if s == [] then 0 else DecimalValue(s[..|s| - 1]) * 10 + DigitValue(s[|s| - 1])
  }

  lemma {:induction false} DecimalRoundTrip(n: nat)
    ensures DecimalValue(NatToDecimal(n)) == n
    decreases n
  {
    if n >= 10 {
      var s := NatToDecimal(n);
      assert s[..|s| - 1] == NatToDecimal(n / 10);
      DecimalRoundTrip(n / 10);
    }
  }

  /** Length of the run of digits at the front of `s`. */
  function SpanDigits(s: string): (k: nat)
    ensures k <= |s|
    ensures forall i :: 0 <= i < k ==> IsDigit(s[i])
    ensures k < |s| ==> !IsDigit(s[k])
  {
    if s == [] || !IsDigit(s[0]) then 0 else 1 + SpanDigits(s[1..])
  }

  /** A digit run followed by a non-digit (or by nothing) is exactly what SpanDigits measures. */
  lemma SpanOfDigitsThen(d: string, rest: string)
    requires AllDigits(d)
    requires rest == [] || !IsDigit(rest[0])
    ensures SpanDigits(d + rest) == |d|
  {
    var s := d + rest;
    forall i | 0 <= i < |d|
      ensures IsDigit(s[i])
    {
      assert s[i] == d[i];
    }
    assert |d| < |s| ==> s[|d|] == rest[0];
  }

  /** `<@id> | username`: a mention of the member followed by their name. */
  function MentionText(m: Member): string
  {
    "<@" + m.id + "> | " + m.username
  }

  /** Who holds slot `i` (1-based): member i-1 when there is one. */
  function Occupant(i: nat, r: seq<Member>): Option<Member>
  {
    if 1 <= i <= |r| then Some(r[i - 1]) else None
  }

  /** Line `i` of the roster body. */
  function SlotLine(i: nat, r: seq<Member>): (line: string)
    // every line opens with its bold number marker
    ensures var marker := "**" + NatToDecimal(i) + ".** ";
      |marker| <= |line| && line[..|marker|] == marker
    // the line is the bare marker exactly when slot i is empty
    ensures |line| == |NatToDecimal(i)| + 6 <==> !(1 <= i <= |r|)
    // a taken slot ends with its member's mention and username
    ensures 1 <= i <= |r| ==>
      var t := MentionText(r[i - 1]);
      |t| <= |line| && line[|line| - |t|..] == t
  {
    var marker := "**" + NatToDecimal(i) + ".** ";
    var body := match Occupant(i, r) case Some(m) => MentionText(m) case None => "";
    assert 1 <= i <= |r| ==> body == "<@" + r[i - 1].id + "> | " + r[i - 1].username;
    marker + body
  }

  /** The number of a slot line and what follows its `**i.** ` marker. */
  datatype Header = Header(number: nat, body: string)

  /** Reads the `**i.** ` marker at the front of a line. */
  function ParseHeader(line: string): Option<Header>
  {
    if |line| < 2 || line[..2] != "**" then None
    else
      var rest := line[2..];
      var k := SpanDigits(rest);
      var tail := rest[k..];
      if k == 0 || |tail| < 4 || tail[..4] != ".** " then None
      else Some(Header(DecimalValue(rest[..k]), tail[4..]))
  }

  /** Reads what follows the marker: nothing for a blank slot, or a mention and a name. */
  function ParseOccupant(body: string): Option<Option<Member>>
  {
    if body == [] then Some(None)
    else if |body| < 2 || body[..2] != "<@" then None
    else
      var idAndName := body[2..];
      var j := SpanDigits(idAndName);
      var after := idAndName[j..];
      if |after| < 4 || after[..4] != "> | " then None
      else Some(Some(Member(idAndName[..j], after[4..])))
  }

  /** Reads a slot line back into its number and occupant. */
  function ParseSlotLine(line: string): Option<SlotView>
  {
    match ParseHeader(line)
    case None => None
    case Some(h) =>
      match ParseOccupant(h.body)
      case None => None
      case Some(occupant) => Some(SlotView(h.number, occupant))
  }

  /** The marker of line `i` reads back as `i`, and the rest of the line is left as it was. */
  lemma {:induction false} HeaderRoundTrip(i: nat, body: string)
    ensures ParseHeader("**" + NatToDecimal(i) + ".** " + body) == Some(Header(i, body))
  {
    var d := NatToDecimal(i);
    var line := "**" + d + ".** " + body;
    assert line[..2] == "**";
    var rest := line[2..];
    assert rest == d + (".** " + body);
    SpanOfDigitsThen(d, ".** " + body);
    assert rest[..|d|] == d;
    DecimalRoundTrip(i);
    var tail := rest[|d|..];
    assert tail == ".** " + body;
    assert tail[..4] == ".** " && tail[4..] == body;
  }

  /** A mention of a member whose id is a snowflake reads back as exactly that member. */
  lemma {:induction false} OccupantRoundTrip(m: Member)
    requires AllDigits(m.id)
    ensures ParseOccupant(MentionText(m)) == Some(Some(m))
  {
    var body := MentionText(m);
    assert body[..2] == "<@";
    var idAndName := body[2..];
    assert idAndName == m.id + ("> | " + m.username);
    SpanOfDigitsThen(m.id, "> | " + m.username);
    assert idAndName[..|m.id|] == m.id;
    var after := idAndName[|m.id|..];
    assert after == "> | " + m.username;
    assert after[..4] == "> | " && after[4..] == m.username;
  }

  /**
   * Rendering is faithful: line i names slot i and shows member i-1 when the
   * roster has one, and is blank otherwise.
   */
  lemma {:induction false} SlotLineRoundTrip(i: nat, r: seq<Member>)
    requires SnowflakeIds(r)
    ensures ParseSlotLine(SlotLine(i, r)) == Some(SlotView(i, Occupant(i, r)))
  {
    if 1 <= i <= |r| {
      HeaderRoundTrip(i, MentionText(r[i - 1]));
      OccupantRoundTrip(r[i - 1]);
    } else {
      HeaderRoundTrip(i, "");
    }
  }

  /**
   * The loop of `buildRosterMessage`: ten lines, numbered 1 to 10, each
   * naming the member in that position or left blank.
   */
  method RenderSlotLines(r: seq<Member>) returns (lines: seq<string>)
    ensures |lines| == MaxSlots
    ensures forall j :: 0 <= j < MaxSlots ==> lines[j] == SlotLine(j + 1, r)
    ensures SnowflakeIds(r) ==>
      forall j :: 0 <= j < MaxSlots ==>
        ParseSlotLine(lines[j]) == Some(SlotView(j + 1, Occupant(j + 1, r)))
  {
    lines := [];
    for i := 1 to MaxSlots + 1
      invariant |lines| == i - 1
      invariant forall j :: 0 <= j < i - 1 ==> lines[j] == SlotLine(j + 1, r)
    {
      lines := lines + [SlotLine(i, r)];
    }
    if SnowflakeIds(r) {
      forall j | 0 <= j < MaxSlots
        ensures ParseSlotLine(lines[j]) == Some(SlotView(j + 1, Occupant(j + 1, r)))
      {
        SlotLineRoundTrip(j + 1, r);
      }
    }
  }

  /** A newly posted roster is empty, so all ten of its lines are blank. */
  lemma {:induction false} FreshRosterAllBlank(i: nat)
    requires 1 <= i <= MaxSlots
    ensures ParseSlotLine(SlotLine(i, [])) == Some(SlotView(i, None))
  {
    SlotLineRoundTrip(i, []);
  }

  /**
   * After a successful leave, the lines above the vacated position are
   * unchanged, every line from there down shows the member who was one line
   * lower, and the last line of a roster that had at most ten members is blank.
   */
  lemma {:induction false} LeaveShiftsLinesUp(r: seq<Member>, uid: UserId, i: nat)
    requires SnowflakeIds(r) && OnRoster(r, uid) && 1 <= i <= MaxSlots
    ensures var k := IndexOfId(r, uid);
      ParseSlotLine(SlotLine(i, LeaveRoster(r, uid).roster))
        == Some(SlotView(i, if i <= k then Occupant(i, r) else Occupant(i + 1, r)))
    ensures |r| <= MaxSlots ==>
      ParseSlotLine(SlotLine(MaxSlots, LeaveRoster(r, uid).roster)) == Some(SlotView(MaxSlots, None))
  {
    var s := LeaveRoster(r, uid).roster;
    assert SnowflakeIds(s) by {
      forall j | 0 <= j < |s| ensures AllDigits(s[j].id) {
        var k := IndexOfId(r, uid);
        assert s[j] == if j < k then r[j] else r[j + 1];
      }
    }
    SlotLineRoundTrip(i, s);
    SlotLineRoundTrip(MaxSlots, s);
  }
}
