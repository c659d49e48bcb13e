/** `_channel_readings` of scripts/weechat/rpe2e.py: the channels a possibly status-prefixed target can mean. */
module ChannelReadings {
  import opened Seqs

  /** `CHANNEL_PREFIXES`. */
  predicate IsChannelPrefix(c: char) { c == '#' || c == '&' || c == '!' || c == '+' }

  /** The status prefixes of `"@%+&~"`. */
  predicate IsStatusPrefix(c: char) { c == '@' || c == '%' || c == '+' || c == '&' || c == '~' }

  predicate IsChannelName(s: string) { s != "" && IsChannelPrefix(s[0]) }

  function StatusRun(target: string): (n: nat)
    ensures n <= |target|
    ensures forall i | 0 <= i < n :: IsStatusPrefix(target[i])
    ensures n < |target| ==> !IsStatusPrefix(target[n])
  {
    if target == "" || !IsStatusPrefix(target[0]) then 0 else 1 + StatusRun(target[1..])
  }

  function Here(target: string, j: nat): seq<string>
    requires j <= |target|
  {
    if IsChannelName(target[j..]) then [target[j..]] else []
  }

  /** The readings left after stripping at most `j` leading characters, most-stripped first. */
  function ReadingsFrom(target: string, j: int): seq<string>
    requires j <= |target|
    decreases j
  {
    if j < 0 then [] else Here(target, j) + ReadingsFrom(target, j - 1)
  }

  function Readings(target: string): seq<string> {
    ReadingsFrom(target, StatusRun(target))
  }

  method ChannelReadingsOf(target: string) returns (readings: seq<string>)
    ensures readings == Readings(target)
  {
    var run := 0;
    while run < |target| && IsStatusPrefix(target[run])
      invariant run <= |target| && forall i | 0 <= i < run :: IsStatusPrefix(target[i])
    {
      run := run + 1;
    }
    StatusRunIs(target, run);
    hide ReadingsFrom, StatusRun, IsChannelName;
    readings := [];
    var j: int := run;
    ReadingsStart(target, run);
    while j >= 0
      invariant -1 <= j <= run
      invariant readings + ReadingsFrom(target, j) == Readings(target)
    {
      var rest := target[j..];
      ReadingsStep(readings, target, j);
      if IsChannelName(rest) {
        readings := readings + [rest];
      }
      j := j - 1;
    }
    ReadingsEnd(readings, target);
  }

  lemma ReadingsStart(target: string, j: int)
    requires j <= |target|
    ensures [] + ReadingsFrom(target, j) == ReadingsFrom(target, j)
  {
  }

  lemma ReadingsStep(readings: seq<string>, target: string, j: nat)
    requires j <= |target|
    ensures readings + ReadingsFrom(target, j) == (readings + Here(target, j)) + ReadingsFrom(target, j - 1)
    ensures Here(target, j) == [] ==> readings + Here(target, j) == readings
  {
    Associative(readings, Here(target, j), ReadingsFrom(target, j - 1));
  }

  lemma ReadingsEnd(readings: seq<string>, target: string)
    ensures readings + ReadingsFrom(target, -1) == readings
  {
  }

  lemma StatusRunIs(target: string, n: nat)
    requires n <= |target| && (forall i | 0 <= i < n :: IsStatusPrefix(target[i]))
    requires n < |target| ==> !IsStatusPrefix(target[n])
    ensures StatusRun(target) == n
  {
  }

  // ----- exactly which suffixes -----

  /** `reading` is what stripping the first `j` characters of the status run leaves, and it names a channel. */
  predicate IsReading(target: string, j: nat, reading: string) {
    j <= StatusRun(target) && reading == target[j..] && IsChannelName(reading)
  }

  lemma HereIsReading(target: string, j: nat, reading: string)
    requires j <= StatusRun(target)
    ensures reading in Here(target, j) <==> IsReading(target, j, reading)
  {
  }

  lemma {:induction false} ReadingsFromMembers(target: string, j: int, reading: string)
    requires j <= StatusRun(target)
    ensures reading in ReadingsFrom(target, j) <==> exists k: nat | k <= j :: IsReading(target, k, reading)
    decreases j
  {
    hide IsReading, Here;
    if j >= 0 {
      ReadingsFromMembers(target, j - 1, reading);
      HereIsReading(target, j, reading);
      var all := Here(target, j) + ReadingsFrom(target, j - 1);
      hide ReadingsFrom;
      assert reading in all <==> reading in Here(target, j) || reading in ReadingsFrom(target, j - 1);
    }
  }

  lemma {:induction false} ReadingsFromOrder(target: string, j: int)
    requires j <= StatusRun(target)
    ensures forall a | 0 <= a < |ReadingsFrom(target, j)| :: |ReadingsFrom(target, j)[a]| >= |target| - j
    ensures forall a, b | 0 <= a < b < |ReadingsFrom(target, j)| ::
              |ReadingsFrom(target, j)[a]| < |ReadingsFrom(target, j)[b]|
    decreases j
  {
    if j >= 0 {
      ReadingsFromOrder(target, j - 1);
      hide IsChannelName, StatusRun;
      var here, rest := Here(target, j), ReadingsFrom(target, j - 1);
      assert forall a | 0 <= a < |here| :: |here[a]| == |target| - j;
      assert |here| <= 1;
    }
  }

  /**
   * The readings are exactly the channel names left by stripping part of the leading status run, without repetition and
   * most-stripped (shortest) first.
   */
  lemma ReadingsExact(target: string)
    ensures forall reading :: reading in Readings(target) <==> exists j: nat :: IsReading(target, j, reading)
    ensures forall a, b | 0 <= a < b < |Readings(target)| :: |Readings(target)[a]| < |Readings(target)[b]|
  {
    ReadingsFromOrder(target, StatusRun(target));
    forall reading
      ensures reading in Readings(target) <==> exists j: nat :: IsReading(target, j, reading)
    {
      ReadingsFromMembers(target, StatusRun(target), reading);
    }
  }
}
