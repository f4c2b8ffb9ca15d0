/**
 * The label table of the detector (`loadLabels`): a line-oriented reader of the
 * `names:` section of the model's metadata, made of `index: name` lines.
 * The asset read is a parameter: `None` stands for a descriptor that could
 * not be opened or read.
 */
module Labels {
  import opened Wrappers
  import opened Text

  /** The table used when the descriptor is missing or yields no names. */
  const DefaultLabels: seq<string> := ["Date_of_Birth", "First_Name", "ID_Number", "Last_Name"]

  /** The largest value Kotlin's `String.toInt()` accepts (`Int.MAX_VALUE`). */
  const MaxInt: nat := 2147483647

  /** The result of searching one trimmed line for the pattern `(\d+):\s*(.+)`. */
  datatype LineMatch = NoMatch | Entry(index: nat, name: string)

  /** Outcome of scanning the lines: the names gathered, or the parse failed with an exception. */
  datatype ScanOutcome = Parsed(names: map<nat, string>) | Failed

  /** End of the maximal run of digits starting at `p`. */
  function RunEnd(s: string, p: nat): (q: nat)
    requires p <= |s|
    ensures p <= q <= |s|
    ensures forall k :: p <= k < q ==> IsDigit(s[k])
    ensures q == |s| || !IsDigit(s[q])
    decreases |s| - p
  {
    if p < |s| && IsDigit(s[p]) then RunEnd(s, p + 1) else p
  }

  /** The pattern matches starting at `p`: digits, then a colon, then at least one more character. */
  predicate MatchAt(s: string, p: nat)
    requires p <= |s|
  {
    p < |s| && IsDigit(s[p]) && RunEnd(s, p) + 1 < |s| && s[RunEnd(s, p)] == ':'
  }

  /** Leftmost start position at or after `p` where the pattern matches (`Regex.find`). */
  function FindMatch(s: string, p: nat): (r: Option<nat>)
    requires p <= |s|
    ensures r.Some? ==> p <= r.value < |s| && MatchAt(s, r.value)
    decreases |s| - p
  {
    if p == |s| then None
    else if MatchAt(s, p) then Some(p)
    else FindMatch(s, p + 1)
  }

  /** The search finds the leftmost match, and reports none only when there is none. */
  lemma {:induction false} FindMatchLeftmost(s: string, p: nat)
    requires p <= |s|
    ensures FindMatch(s, p).Some? ==> forall k :: p <= k < FindMatch(s, p).value ==> !MatchAt(s, k)
    ensures FindMatch(s, p).None? ==> forall k :: p <= k <= |s| ==> !MatchAt(s, k)
    decreases |s| - p
  {
    if p < |s| && !MatchAt(s, p) {
      FindMatchLeftmost(s, p + 1);
    }
  }

  /**
   * Group 2 of the pattern on the text after the colon: `\s*` is greedy but
   * gives one character back when only whitespace is left, since `.+` needs one.
   */
  function SecondGroup(rest: string): string
    requires rest != []
  {
    var blanks := |rest| - |TrimStart(rest)|;
    if blanks == |rest| then rest[|rest| - 1..] else rest[blanks..]
  }

  /** The regex search of YoloDetector.kt:105, with groups 1 and 2 converted as at lines 107-108. */
  function ParseLine(s: string): LineMatch {
    match FindMatch(s, 0)
    case None => NoMatch
    case Some(p) =>
      var q := RunEnd(s, p);
      Entry(DigitsValue(s[p..q]), Trim(SecondGroup(s[q + 1..])))
  }

  predicate StartsWithSpace(s: string) { s != [] && s[0] == ' ' }

  /** What one line means to the loop of `loadLabels`. */
  datatype LineKind =
    | Header                          // trims to `names:`
    | Named(index: nat, name: string) // the pattern matched
    | Skip                            // no match, but empty (or starting with a blank)
    | End                             // no match and not empty: ends the section

  /** Lines 99-110: trim, compare with `names:`, search for the pattern, test for emptiness. */
  function Classify(line: string): LineKind {
    var trimmed := Trim(line);
    if trimmed == "names:" then Header
    else
      match ParseLine(trimmed)
      case Entry(index, name) => Named(index, name)
      case NoMatch => if |trimmed| > 0 && !StartsWithSpace(trimmed) then End else Skip
  }

  function ClassifyAll(lines: seq<string>): (kinds: seq<LineKind>)
    ensures |kinds| == |lines|
    ensures forall i :: 0 <= i < |lines| ==> kinds[i] == Classify(lines[i])
  {
    seq(|lines|, i requires 0 <= i < |lines| => Classify(lines[i]))
  }

  /**
   * The line loop of `loadLabels`, from the current line on: `inSection` is
   * `inNamesSection` and `names` the mutable map. An index beyond `Int.MAX_VALUE`
   * makes `toInt()` throw, which abandons the whole parse.
   */
  function Scan(kinds: seq<LineKind>, inSection: bool, names: map<nat, string>): ScanOutcome
    decreases |kinds|
  {
    if kinds == [] then Parsed(names)
    else if kinds[0].Header? then Scan(kinds[1..], true, names)
    else if !inSection then Scan(kinds[1..], false, names)
    else
      match kinds[0]
      case Named(index, name) =>
        if index > MaxInt then Failed else Scan(kinds[1..], true, names[index := name])
      case End => Parsed(names)
      case Skip => Scan(kinds[1..], true, names)
  }

  /** Placeholder for a class index that no line named. */
  function UnknownLabel(i: nat): string { "Unknown_" + NatToString(i) }

  /** `(0 until names.size).map { names[it] ?: "Unknown_$it" }` */
  function Dense(names: map<nat, string>): (r: seq<string>)
    ensures |r| == |names|
    ensures forall i :: 0 <= i < |r| && i in names ==> r[i] == names[i]
    ensures forall i :: 0 <= i < |r| && i !in names ==> r[i] == UnknownLabel(i)
  {
    seq(|names|, i requires 0 <= i < |names| => if i in names then names[i] else UnknownLabel(i))
  }

  /** The table once the lines are scanned: the gathered names if any, the default otherwise. */
  function Finish(names: map<nat, string>): seq<string> {
    if |names| > 0 then Dense(names) else DefaultLabels
  }

  /** The label table `loadLabels` returns for the descriptor's lines (`None`: not readable). */
  function LabelTable(content: Option<seq<string>>): (r: seq<string>)
    ensures r != []
    ensures content.None? ==> r == DefaultLabels
    ensures content.Some? && Scan(ClassifyAll(content.value), false, map[]).Failed? ==> r == DefaultLabels
    ensures content.Some? && Scan(ClassifyAll(content.value), false, map[]).Parsed? ==>
      var names := Scan(ClassifyAll(content.value), false, map[]).names;
      (names == map[] ==> r == DefaultLabels) &&
      (names != map[] ==>
        |r| == |names| &&
        forall i :: 0 <= i < |r| ==> r[i] == if i in names then names[i] else UnknownLabel(i))
  {
    match content
    case None => DefaultLabels
    case Some(lines) =>
      match Scan(ClassifyAll(lines), false, map[])
      case Failed => DefaultLabels
      case Parsed(names) => Finish(names)
  }

  /** The loop of `loadLabels` over the descriptor's lines. */
  method LoadLabels(content: Option<seq<string>>) returns (labels: seq<string>)
    ensures labels == LabelTable(content)
  {
    if content.None? {
      return DefaultLabels;
    }
    var lines := content.value;
    ghost var kinds := ClassifyAll(lines);
    var names: map<nat, string> := map[];
    var inNamesSection := false;
    var i := 0;
    while i < |lines|
      invariant 0 <= i <= |lines|
      invariant Scan(kinds[i..], inNamesSection, names) == Scan(kinds, false, map[])
    {
      var trimmedLine := Trim(lines[i]);
      assert kinds[i..][0] == Classify(lines[i]) && kinds[i..][1..] == kinds[i + 1..];
      if trimmedLine == "names:" {
        inNamesSection := true;
      } else if inNamesSection {
        match ParseLine(trimmedLine)
        case Entry(index, name) =>
          if index > MaxInt {
            // `toInt()` throws; the handler falls back to the default table
            return DefaultLabels;
          }
          names := names[index := name];
        case NoMatch =>
          if |trimmedLine| > 0 && !StartsWithSpace(trimmedLine) {
            labels := Finish(names);
            return;
          }
      }
      i := i + 1;
    }
    labels := Finish(names);
  }

  // ---------------------------------------------------------------------------
  // Properties of the parser

  /** Lines before the first `names:` line are never looked at. */
  lemma {:induction false} LinesBeforeSectionIgnored(prefix: seq<LineKind>, rest: seq<LineKind>, names: map<nat, string>)
    requires forall k :: 0 <= k < |prefix| ==> !prefix[k].Header?
    ensures Scan(prefix + rest, false, names) == Scan(rest, false, names)
  {
    if prefix == [] {
      assert prefix + rest == rest;
    } else {
      var kinds := prefix + rest;
      assert kinds[0] == prefix[0];
      assert kinds[1..] == prefix[1..] + rest;
      LinesBeforeSectionIgnored(prefix[1..], rest, names);
    }
  }

  /** Hence the table of a descriptor is the table of its lines from the first `names:` on. */
  lemma TableStartsAtSection(prefix: seq<string>, rest: seq<string>)
    requires forall k :: 0 <= k < |prefix| ==> Trim(prefix[k]) != "names:"
    ensures LabelTable(Some(prefix + rest)) == LabelTable(Some(rest))
  {
    assert ClassifyAll(prefix + rest) == ClassifyAll(prefix) + ClassifyAll(rest);
    LinesBeforeSectionIgnored(ClassifyAll(prefix), ClassifyAll(rest), map[]);
  }

  /** Lines that do not end the section. */
  predicate NoEnd(kinds: seq<LineKind>) {
    forall k :: 0 <= k < |kinds| ==> !kinds[k].End?
  }

  /** A name bound before `mid` is dead once a later entry rebinds its index. */
  lemma {:induction false} RebindingForgets(index: nat, first: string, mid: seq<LineKind>, tail: seq<LineKind>,
                                           names: map<nat, string>)
    requires NoEnd(mid) && tail != [] && tail[0].Named? && tail[0].index == index
    ensures Scan(mid + tail, true, names[index := first]) == Scan(mid + tail, true, names)
  {
    var kinds := mid + tail;
    if mid == [] {
      assert kinds == tail;
      assert names[index := first][index := tail[0].name] == names[index := tail[0].name];
    } else {
      assert kinds[0] == mid[0] && kinds[1..] == mid[1..] + tail;
      match mid[0]
      case Header =>
        RebindingForgets(index, first, mid[1..], tail, names);
      case Skip =>
        RebindingForgets(index, first, mid[1..], tail, names);
      case Named(k, name) =>
        if k <= MaxInt {
          if k == index {
            assert names[index := first][k := name] == names[k := name];
          } else {
            assert names[index := first][k := name] == names[k := name][index := first];
            RebindingForgets(index, first, mid[1..], tail, names[k := name]);
          }
        }
    }
  }

  /** An overflowing index ahead, with no end of section before it, fails the parse. */
  lemma {:induction false} OverflowAheadFails(mid: seq<LineKind>, tail: seq<LineKind>, names: map<nat, string>)
    requires NoEnd(mid) && tail != [] && tail[0].Named? && tail[0].index > MaxInt
    ensures Scan(mid + tail, true, names) == Failed
  {
    var kinds := mid + tail;
    if mid == [] {
      assert kinds == tail;
    } else {
      assert kinds[0] == mid[0] && kinds[1..] == mid[1..] + tail;
      match mid[0]
      case Header =>
        OverflowAheadFails(mid[1..], tail, names);
      case Skip =>
        OverflowAheadFails(mid[1..], tail, names);
      case Named(k, name) =>
        if k <= MaxInt {
          OverflowAheadFails(mid[1..], tail, names[k := name]);
        }
    }
  }

  /**
   * Inside the section, an entry whose index a later entry repeats may be
   * dropped, whatever lies in between short of the end of the section: the
   * later name wins.
   */
  lemma LaterIndexOverwrites(index: nat, first: string, mid: seq<LineKind>, second: string, rest: seq<LineKind>,
                             names: map<nat, string>)
    requires NoEnd(mid)
    ensures Scan([Named(index, first)] + (mid + ([Named(index, second)] + rest)), true, names)
         == Scan(mid + ([Named(index, second)] + rest), true, names)
  {
    var tail := [Named(index, second)] + rest;
    var kinds := [Named(index, first)] + (mid + tail);
    assert kinds[1..] == mid + tail;
    if index <= MaxInt {
      RebindingForgets(index, first, mid, tail, names);
    } else {
      OverflowAheadFails(mid, tail, names);
    }
  }

  /** Inside the section, the first non-empty line that is not an entry ends it, whatever follows. */
  lemma NonEntryEndsSection(line: string, rest: seq<LineKind>, names: map<nat, string>)
    requires Trim(line) != "names:" && Trim(line) != []
    requires ParseLine(Trim(line)).NoMatch?
    ensures Scan([Classify(line)] + rest, true, names) == Parsed(names)
  {
    assert !StartsWithSpace(Trim(line));
  }

  /** The `startsWith(" ")` test of the section end never holds: a trimmed line has no leading blank. */
  lemma TrimmedNeverStartsWithSpace(line: string)
    ensures !StartsWithSpace(Trim(line))
  {
  }

  lemma {:induction false} RunEndOfDigits(digits: string, tail: string)
    requires forall k :: 0 <= k < |digits| ==> IsDigit(digits[k])
    requires tail != [] && !IsDigit(tail[0])
    ensures forall p :: 0 <= p <= |digits| ==> RunEnd(digits + tail, p) == |digits|
  {
    var s := digits + tail;
    var p := |digits|;
    while p > 0
      invariant 0 <= p <= |digits|
      invariant forall p' :: p <= p' <= |digits| ==> RunEnd(s, p') == |digits|
    {
      p := p - 1;
      assert s[p] == digits[p];
    }
  }

  /** After the colon of the written form, group 2 is the name itself. */
  lemma SecondGroupOfName(name: string)
    requires name != [] && !IsWhitespace(name[0])
    ensures SecondGroup(" " + name) == name
  {
    var rest := " " + name;
    assert rest[0] == ' ' && rest[1..] == name;
    assert TrimStart(rest) == TrimStart(name);
  }

  /** In the written form, the pattern matches at the first digit and group 1 is the whole index. */
  lemma WrittenFormMatches(digits: string, name: string)
    requires digits != [] && forall k :: 0 <= k < |digits| ==> IsDigit(digits[k])
    ensures var s := digits + (": " + name);
      FindMatch(s, 0) == Some(0) && RunEnd(s, 0) == |digits|
  {
    var tail := ": " + name;
    var s := digits + tail;
    RunEndOfDigits(digits, tail);
    assert s[0] == digits[0];
    assert s[|digits|] == tail[0] == ':';
  }

  /** A match at the very start: group 1 is the leading digits, group 2 what follows the colon. */
  lemma ParseAtStart(s: string, q: nat, name: string)
    requires 0 < q < |s| - 1
    requires FindMatch(s, 0) == Some(0) && RunEnd(s, 0) == q
    requires Trim(SecondGroup(s[q + 1..])) == name
    ensures ParseLine(s) == Entry(DigitsValue(s[0..q]), name)
  {
  }

  /** A name written after `": "` comes back unchanged from group 2 and `trim()`. */
  lemma NameAfterColon(s: string, q: nat, name: string)
    requires 0 < q < |s| - 1
    requires s[q + 1..] == " " + name
    requires name != [] && !IsWhitespace(name[0]) && !IsWhitespace(name[|name| - 1])
    ensures Trim(SecondGroup(s[q + 1..])) == name
  {
    SecondGroupOfName(name);
    TrimUnchanged(name);
  }

  /** The two pieces of the written form around its colon. */
  lemma WrittenLinePieces(digits: string, name: string, line: string)
    requires line == digits + (": " + name)
    ensures line[0..|digits|] == digits
    ensures line[|digits| + 1..] == " " + name
  {
    assert line[|digits| + 1..] == (": " + name)[1..];
  }

  /** A line `digits: name` parses to the value of the digits and the name. */
  lemma WrittenLineParses(digits: string, name: string, line: string)
    requires digits != [] && forall k :: 0 <= k < |digits| ==> IsDigit(digits[k])
    requires name != [] && !IsWhitespace(name[0]) && !IsWhitespace(name[|name| - 1])
    requires line == digits + (": " + name)
    ensures ParseLine(line) == Entry(DigitsValue(digits), name)
  {
    WrittenFormMatches(digits, name);
    WrittenLinePieces(digits, name, line);
    NameAfterColon(line, |digits|, name);
    ParseAtStart(line, |digits|, name);
  }

  /** An `index: name` line as the descriptor writes it parses back to that index and name. */
  lemma EntryLineRoundTrip(index: nat, name: string)
    requires name != [] && !IsWhitespace(name[0]) && !IsWhitespace(name[|name| - 1])
    ensures ParseLine(NatToString(index) + ": " + name) == Entry(index, name)
  {
    var digits := NatToString(index);
    assert digits + ": " + name == digits + (": " + name);
    WrittenLineParses(digits, name, digits + ": " + name);
  }

  /** The indices below `n`. */
  function Below(n: nat): (r: set<nat>)
    ensures forall i: nat :: i in r <==> i < n
    ensures |r| == n
  {
    if n == 0 then {} else
      var r := Below(n - 1) + {n - 1};
      assert n - 1 !in Below(n - 1);
      r
  }

  /**
   * The table has a placeholder entry exactly when some index lies at or
   * beyond the number of distinct indices: then the name under that index is
   * not in the table, because the table only spans `0 until names.size`.
   */
  lemma NoPlaceholderIffIndicesContiguous(names: map<nat, string>)
    ensures (forall i :: 0 <= i < |names| ==> i in names) <==> (forall k :: k in names ==> k < |names|)
  {
    var range := Below(|names|);
    if forall i :: 0 <= i < |names| ==> i in names {
      assert range <= names.Keys;
      assert |names.Keys - range| == 0;
      assert names.Keys == range;
    }
    if forall k :: k in names ==> k < |names| {
      assert names.Keys <= range;
      assert |range - names.Keys| == 0;
      assert names.Keys == range;
    }
  }
}
