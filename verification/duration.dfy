/** The video-length parser of the discovery service: the time part of an
    ISO 8601 duration with designators (ISO 8601:2004, section 4.4.3.2),
    `PT…H…M…S`, read with an unanchored regular expression and returned in
    minutes. */
module Duration {
  import opened Wrappers
  import opened Text
  import JsMath

  predicate PTAt(d: string, j: int) {
    0 <= j && j + 1 < |d| && d[j] == 'P' && d[j + 1] == 'T'
  }

  /** Whether "PT" occurs anywhere in `d`. */
  predicate HasPT(d: string) {
    exists j :: 0 <= j < |d| && PTAt(d, j)
  }

  /** The leftmost occurrence of "PT" at or after `i`: where the unanchored
      regular expression starts its match. */
  function FindPT(d: string, i: nat): (r: Option<nat>)
    ensures r.Some? ==> i <= r.value && PTAt(d, r.value)
    ensures r.Some? ==> forall j :: i <= j < r.value ==> !PTAt(d, j)
    ensures r.None? ==> forall j :: i <= j ==> !PTAt(d, j)
    decreases |d| - i
  {
    if i + 2 > |d| then None
    else if PTAt(d, i) then Some(i)
    else FindPT(d, i + 1)
  }

  /** Length of the run of ASCII digits starting at `pos` (greedy `\d+`). */
  function DigitRun(d: string, pos: nat): (n: nat)
    requires pos <= |d|
    ensures pos + n <= |d|
    ensures forall k :: pos <= k < pos + n ==> IsDigit(d[k])
    ensures pos + n < |d| ==> !IsDigit(d[pos + n])
    decreases |d| - pos
  {
    if pos < |d| && IsDigit(d[pos]) then 1 + DigitRun(d, pos + 1) else 0
  }

  /** One optional group `(?:(\d+)X)?` tried at `pos`: it matches when the digit
      run there is non-empty and followed by the designator `X`. Returns the
      captured number (0 when absent, as `parseInt(m || '0')`) and the position
      after the group. */
  function ReadComponent(d: string, pos: nat, designator: char): (r: (nat, nat))
    requires pos <= |d|
    ensures pos <= r.1 <= |d|
  {
    var n := DigitRun(d, pos);
    if n > 0 && pos + n < |d| && d[pos + n] == designator then
      assert AllDigits(d[pos..pos + n]);
      (DigitsValue(d[pos..pos + n]), pos + n + 1)
    else (0, pos)
  }

  /** `parseYouTubeDuration`: hours·60 + minutes + Math.round(seconds / 60),
      and 0 when "PT" does not occur. */
  function ParseYouTubeDuration(d: string): (minutes: nat)
    ensures !HasPT(d) ==> minutes == 0
  {
    match FindPT(d, 0)
    case None => 0
    case Some(i) =>
      var hours := ReadComponent(d, i + 2, 'H');
      var minutes := ReadComponent(d, hours.1, 'M');
      var seconds := ReadComponent(d, minutes.1, 'S');
      hours.0 * 60 + minutes.0 + JsMath.RoundRatio(seconds.0, 60)
  }

  /** The inverse direction: the canonical `PT[nH][nM][nS]` rendering of
      optional hour, minute and second counts. */
  function Part(c: Option<nat>, designator: char): string {
    match c
    case None => ""
    case Some(v) => NatToString(v) + [designator]
  }

  function Format(h: Option<nat>, m: Option<nat>, s: Option<nat>): string {
    "PT" + Part(h, 'H') + Part(m, 'M') + Part(s, 'S')
  }

  /** The digit run at `pos` has length `k` when `k` digits there are followed
      by a non-digit. */
  lemma {:induction false} DigitRunExact(d: string, pos: nat, k: nat)
    requires pos + k < |d|
    requires forall i :: pos <= i < pos + k ==> IsDigit(d[i])
    requires !IsDigit(d[pos + k])
    ensures DigitRun(d, pos) == k
  {
    var j := 0;
    while j < k
      invariant 0 <= j <= k
      invariant DigitRun(d, pos + k - j) == j
    {
      j := j + 1;
    }
  }

  /** The tail that follows a group whose designator is `des`: empty, or a
      digit run closed by some other designator. */
  predicate NextGroup(rest: string, des: char) {
    rest == [] ||
    exists k :: 0 < k < |rest| && (forall i :: 0 <= i < k ==> IsDigit(rest[i]))
                && !IsDigit(rest[k]) && rest[k] != des
  }

  /** An absent group reads nothing. */
  lemma ReadAbsent(d: string, pos: nat, des: char)
    requires pos <= |d| && NextGroup(d[pos..], des)
    ensures ReadComponent(d, pos, des) == (0, pos)
  {
    if d[pos..] != [] {
      var k :| 0 < k < |d[pos..]| && (forall i :: 0 <= i < k ==> IsDigit(d[pos..][i]))
               && !IsDigit(d[pos..][k]) && d[pos..][k] != des;
      assert forall i :: pos <= i < pos + k ==> d[i] == d[pos..][i - pos];
      DigitRunExact(d, pos, k);
    }
  }

  /** A present group reads the number rendered in front of its designator. */
  lemma ReadPresent(d: string, pos: nat, v: nat, des: char, tail: string)
    requires pos <= |d| && d[pos..] == NatToString(v) + [des] + tail
    requires !IsDigit(des)
    ensures ReadComponent(d, pos, des) == (v, pos + |NatToString(v)| + 1)
  {
    var w := NatToString(v);
    assert forall i :: pos <= i < pos + |w| ==> d[i] == d[pos..][i - pos] == w[i - pos];
    assert d[pos + |w|] == d[pos..][|w|] == des;
    DigitRunExact(d, pos, |w|);
    assert d[pos..pos + |w|] == w;
  }

  lemma NextGroupOfPart(c: Option<nat>, o: char, tail: string, des: char)
    requires c.Some? && o != des && !IsDigit(o)
    ensures NextGroup(Part(c, o) + tail, des)
  {
    var w := NatToString(c.value);
    var rest := Part(c, o) + tail;
    assert rest[|w|] == o;
    assert forall i :: 0 <= i < |w| ==> rest[i] == w[i];
  }

  /** Reading the group for `des` at the start of a rendered tail. */
  lemma ReadPart(d: string, pos: nat, c: Option<nat>, des: char, rest: string)
    requires pos <= |d| && d[pos..] == Part(c, des) + rest
    requires !IsDigit(des) && NextGroup(rest, des)
    ensures ReadComponent(d, pos, des) == (c.GetOr(0), pos + |Part(c, des)|)
  {
    match c
    case Some(v) =>
      ReadPresent(d, pos, v, des, rest);
    case None =>
      assert d[pos..] == rest;
      ReadAbsent(d, pos, des);
  }

  /** The parse assembled from what the three groups read. */
  lemma ParseFromGroups(d: string, h: nat, p1: nat, m: nat, p2: nat, s: nat)
    requires FindPT(d, 0) == Some(0) && 2 <= |d|
    requires p1 <= |d| && p2 <= |d|
    requires ReadComponent(d, 2, 'H').0 == h && ReadComponent(d, 2, 'H').1 == p1
    requires ReadComponent(d, p1, 'M').0 == m && ReadComponent(d, p1, 'M').1 == p2
    requires ReadComponent(d, p2, 'S').0 == s
    ensures ParseYouTubeDuration(d) == 60 * h + m + JsMath.RoundRatio(s, 60)
  {
  }

  lemma FindAtStart(d: string)
    requires PTAt(d, 0)
    ensures FindPT(d, 0) == Some(0)
  {
  }

  lemma ConcatShape(A: string, B: string, C: string)
    ensures var d := "PT" + A + B + C;
            && PTAt(d, 0)
            && d[2..] == A + (B + C)
            && d[2 + |A|..] == B + C
            && d[2 + |A| + |B|..] == C + []
  {
    var d := "PT" + A + B + C;
    assert d == "PT" + A + (B + C);
    assert d[0] == 'P' && d[1] == 'T';
  }

  /** Round trip: parsing a rendered duration gives 60·H + M + round(S / 60),
      an absent component counting 0. */
  lemma ParseFormat(h: Option<nat>, m: Option<nat>, s: Option<nat>)
    ensures ParseYouTubeDuration(Format(h, m, s))
            == 60 * h.GetOr(0) + m.GetOr(0) + JsMath.RoundRatio(s.GetOr(0), 60)
  {
    var A, B, C := Part(h, 'H'), Part(m, 'M'), Part(s, 'S');
    ConcatShape(A, B, C);
    ParseShape("PT" + A + B + C, h, m, s);
  }

  /** The round trip, knowing only where each group of the rendering sits. */
  lemma ParseShape(d: string, h: Option<nat>, m: Option<nat>, s: Option<nat>)
    requires PTAt(d, 0)
    requires 2 + |Part(h, 'H')| + |Part(m, 'M')| + |Part(s, 'S')| == |d|
    requires d[2..] == Part(h, 'H') + (Part(m, 'M') + Part(s, 'S'))
    requires d[2 + |Part(h, 'H')|..] == Part(m, 'M') + Part(s, 'S')
    requires d[2 + |Part(h, 'H')| + |Part(m, 'M')|..] == Part(s, 'S') + []
    ensures ParseYouTubeDuration(d) == 60 * h.GetOr(0) + m.GetOr(0) + JsMath.RoundRatio(s.GetOr(0), 60)
  {
    FindAtStart(d);
    ReadGroups(d, 2 + |Part(h, 'H')|, 2 + |Part(h, 'H')| + |Part(m, 'M')|, h, m, s);
  }

  /** What each of the three groups of a rendering reads, the hour group
      ending at `p1` and the minute group at `p2`. */
  lemma ReadGroups(d: string, p1: nat, p2: nat, h: Option<nat>, m: Option<nat>, s: Option<nat>)
    requires FindPT(d, 0) == Some(0)
    requires p1 == 2 + |Part(h, 'H')| && p2 == p1 + |Part(m, 'M')| && p2 + |Part(s, 'S')| == |d|
    requires d[2..] == Part(h, 'H') + (Part(m, 'M') + Part(s, 'S'))
    requires d[p1..] == Part(m, 'M') + Part(s, 'S')
    requires d[p2..] == Part(s, 'S') + []
    ensures ParseYouTubeDuration(d) == 60 * h.GetOr(0) + m.GetOr(0) + JsMath.RoundRatio(s.GetOr(0), 60)
  {
    ReadHours(d, p1, h, m, s);
    ReadMinutes(d, p1, p2, m, s);
    ReadSeconds(d, p2, s);
    ParseFromGroups(d, h.GetOr(0), p1, m.GetOr(0), p2, s.GetOr(0));
  }

  lemma ReadHours(d: string, next: nat, h: Option<nat>, m: Option<nat>, s: Option<nat>)
    requires 2 <= |d| && d[2..] == Part(h, 'H') + (Part(m, 'M') + Part(s, 'S'))
    requires next == 2 + |Part(h, 'H')|
    ensures ReadComponent(d, 2, 'H').0 == h.GetOr(0) && ReadComponent(d, 2, 'H').1 == next
  {
    TailsFollowGroups(m, s);
    ReadPart(d, 2, h, 'H', Part(m, 'M') + Part(s, 'S'));
  }

  lemma ReadMinutes(d: string, pos: nat, next: nat, m: Option<nat>, s: Option<nat>)
    requires pos <= |d| && d[pos..] == Part(m, 'M') + Part(s, 'S')
    requires next == pos + |Part(m, 'M')|
    ensures ReadComponent(d, pos, 'M').0 == m.GetOr(0) && ReadComponent(d, pos, 'M').1 == next
  {
    TailsFollowGroups(m, s);
    ReadPart(d, pos, m, 'M', Part(s, 'S'));
  }

  lemma ReadSeconds(d: string, pos: nat, s: Option<nat>)
    requires pos <= |d| && d[pos..] == Part(s, 'S') + []
    ensures ReadComponent(d, pos, 'S').0 == s.GetOr(0)
  {
    TailsFollowGroups(None, s);
    ReadPart(d, pos, s, 'S', []);
  }

  /** What follows the hour group and the minute group of a rendering. */
  lemma TailsFollowGroups(m: Option<nat>, s: Option<nat>)
    ensures NextGroup(Part(m, 'M') + Part(s, 'S'), 'H')
    ensures NextGroup(Part(s, 'S'), 'M')
    ensures NextGroup([], 'S')
  {
    if s.Some? {
      NextGroupOfPart(s, 'S', [], 'H');
      NextGroupOfPart(s, 'S', [], 'M');
      assert Part(s, 'S') + [] == Part(s, 'S');
    }
    if m.Some? {
      NextGroupOfPart(m, 'M', Part(s, 'S'), 'H');
    } else {
      assert Part(m, 'M') + Part(s, 'S') == Part(s, 'S');
    }
  }

  lemma ExampleMinutesSeconds()
    ensures ParseYouTubeDuration("PT1M30S") == 2
  {
    assert NatToString(30) == "30";
    assert Format(None, Some(1), Some(30)) == "PT1M30S";
    ParseFormat(None, Some(1), Some(30));
  }

  lemma ExampleHours()
    ensures ParseYouTubeDuration("PT1H") == 60
  {
    assert Format(Some(1), None, None) == "PT1H";
    ParseFormat(Some(1), None, None);
  }

  /** Durations with a day part do not contain "PT" and read as 0. */
  lemma ExampleDays()
    ensures ParseYouTubeDuration("P1D") == 0
    ensures ParseYouTubeDuration("P1DT2H") == 0
  {
    assert !HasPT("P1D");
    assert !PTAt("P1DT2H", 0) && !PTAt("P1DT2H", 2) && !PTAt("P1DT2H", 3);
    assert !HasPT("P1DT2H");
  }

  /** Groups are only read in the order H, M, S: an hour group after a minute
      group is ignored. */
  lemma OutOfOrderExample()
    ensures ParseYouTubeDuration("PT1M1H") == 1
  {
    var d := "PT1M1H";
    assert PTAt(d, 0);
    OutOfOrderHours();
    OutOfOrderMinutes();
    OutOfOrderSeconds();
    ParseFromGroups(d, 0, 2, 1, 4, 0);
  }

  /** "1M" is not an hour group, so the hour group is empty. */
  lemma OutOfOrderHours()
    ensures ReadComponent("PT1M1H", 2, 'H') == (0, 2)
  {
    var d := "PT1M1H";
    assert d[2..][0] == '1' && d[2..][1] == 'M';
    ReadAbsent(d, 2, 'H');
  }

  lemma OutOfOrderMinutes()
    ensures ReadComponent("PT1M1H", 2, 'M') == (1, 4)
  {
    var d := "PT1M1H";
    assert NatToString(1) == "1";
    assert d[2..] == NatToString(1) + ['M'] + "1H";
    ReadPresent(d, 2, 1, 'M', "1H");
  }

  /** "1H" after the minutes is not a seconds group either. */
  lemma OutOfOrderSeconds()
    ensures ReadComponent("PT1M1H", 4, 'S') == (0, 4)
  {
    var d := "PT1M1H";
    assert d[4..][0] == '1' && d[4..][1] == 'H';
    ReadAbsent(d, 4, 'S');
  }

}
