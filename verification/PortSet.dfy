/** Port expressions like `80,443,10000-10100` (src/portset.rs). */
module PortSet {
  import opened Counting
  import opened Net
  import opened Text

  datatype PortError = EmptyExpression | EmptySegment | InvalidPort | PortZero | InvertedRange

  datatype Range = Range(lo: nat, hi: nat)

  function ParsePort(segment: string): (r: Result<nat, PortError>)
    ensures r.Ok? ==> 1 <= r.value <= U16_MAX
  {
    var s := Trim(segment);
    match ParseU16(s)
    case None => Err(InvalidPort)
    case Some(port) => if port == 0 then Err(PortZero) else Ok(port)
  }

  /** One comma-separated segment, not yet trimmed. */
  function ParseSegment(raw: string): (r: Result<Range, PortError>)
    ensures r.Ok? ==> 1 <= r.value.lo <= r.value.hi <= U16_MAX
  {
    var segment := Trim(raw);
    if segment == "" then Err(EmptySegment)
    else match FirstIndex(segment, '-')
      case Some(i) => (
        match ParsePort(segment[..i])
        case Err(e) => Err(e)
        case Ok(start) => (
          match ParsePort(segment[i + 1..])
          case Err(e) => Err(e)
          case Ok(end) => if start > end then Err(InvertedRange) else Ok(Range(start, end))))
      case None => (
        match ParsePort(segment)
        case Err(e) => Err(e)
        case Ok(port) => Ok(Range(port, port)))
  }

  /** A port is a trimmed 16-bit decimal number other than 0. */
  lemma PortIff(segment: string, port: nat)
    ensures ParsePort(segment) == Ok(port) <==> Denotes(Trim(segment), port) && 1 <= port <= 65535
    ensures ParsePort(segment) == Err(PortZero) <==> Denotes(Trim(segment), 0)
    ensures ParsePort(segment) == Err(InvalidPort) <==> forall n | Denotes(Trim(segment), n) :: n > 65535
  {
    var s := Trim(segment);
    ParseU16Iff(s, port);
    ParseU16Iff(s, 0);
    if ParseU16(s).Some? {
      ParseU16Iff(s, ParseU16(s).value);
    } else {
      forall n | Denotes(s, n)
        ensures n > 65535
      {
        ParseU16Iff(s, n);
      }
    }
  }

  /** The first dash is at `i`, between two numbers, with or without blanks around each. */
  predicate RangeAt(s: string, i: nat, lo: nat, hi: nat) {
    i < |s| && s[i] == '-' && '-' !in s[..i] && Denotes(Trim(s[..i]), lo) && Denotes(Trim(s[i + 1..]), hi)
  }

  ghost predicate SpellsRange(s: string, lo: nat, hi: nat) {
    exists i: nat :: RangeAt(s, i, lo, hi)
  }

  /** `raw` writes the ports `lo` to `hi`: one port, or two around a dash, with or without blanks around. */
  ghost predicate Spells(raw: string, lo: nat, hi: nat) {
    && 1 <= lo <= hi <= 65535
    && ((lo == hi && '-' !in Trim(raw) && Denotes(Trim(raw), lo)) || SpellsRange(Trim(raw), lo, hi))
  }

  /** The range form, in terms of the dash the parser finds. */
  lemma RangeAtDash(s: string, lo: nat, hi: nat)
    ensures match FirstIndex(s, '-')
            case None => !SpellsRange(s, lo, hi)
            case Some(i) => SpellsRange(s, lo, hi) <==> Denotes(Trim(s[..i]), lo) && Denotes(Trim(s[i + 1..]), hi)
  {
    if i: nat :| RangeAt(s, i, lo, hi) {
      FirstIs(s, '-', i);
    }
    if FirstIndex(s, '-').Some? {
      var i := FirstIndex(s, '-').value;
      assert RangeAt(s, i, lo, hi) <==> Denotes(Trim(s[..i]), lo) && Denotes(Trim(s[i + 1..]), hi);
    }
  }

  lemma SegmentIff(raw: string, lo: nat, hi: nat)
    ensures ParseSegment(raw) == Ok(Range(lo, hi)) <==> Spells(raw, lo, hi)
  {
    var s := Trim(raw);
    RangeAtDash(s, lo, hi);
    match FirstIndex(s, '-')
    case None =>
      PortIff(s, lo);
      TrimTwice(raw);
    case Some(i) =>
      PortIff(s[..i], lo);
      PortIff(s[i + 1..], hi);
  }

  /** Which error a segment gives: blank, a range upside down, or, first come first served, a bad number. */
  lemma SegmentErrors(raw: string)
    ensures ParseSegment(raw) == Err(EmptySegment) <==> Blank(raw)
    ensures ParseSegment(raw) == Err(InvertedRange) <==> Inverted(raw)
    ensures ParseSegment(raw) != Err(EmptyExpression)
  {
    BlankTrimsToNothing(raw);
    if ParseSegment(raw) == Err(InvertedRange) {
      InvertedIs(raw);
    }
    if lo: nat, hi: nat :| 1 <= hi < lo <= 65535 && SpellsRange(Trim(raw), lo, hi) {
      InvertedFails(raw, lo, hi);
    }
  }

  /** Zero is reported where it is met: the only number, the first, or the second after a valid first one. */
  lemma SegmentZero(raw: string)
    ensures ParseSegment(raw) == Err(PortZero) <==>
            var s := Trim(raw);
            match FirstIndex(s, '-')
            case None => Denotes(s, 0)
            case Some(i) =>
              || Denotes(Trim(s[..i]), 0)
              || (Denotes(Trim(s[i + 1..]), 0) && exists lo | 1 <= lo <= 65535 :: Denotes(Trim(s[..i]), lo))
  {
    var s := Trim(raw);
    TrimTwice(raw);
    match FirstIndex(s, '-')
    case None => PortIff(s, 0);
    case Some(i) =>
      PortIff(s[..i], 0);
      PortIff(s[i + 1..], 0);
      if ParsePort(s[..i]).Ok? {
        PortIff(s[..i], ParsePort(s[..i]).value);
      }
      if lo :| 1 <= lo <= 65535 && Denotes(Trim(s[..i]), lo) {
        PortIff(s[..i], lo);
      }
  }

  ghost predicate Inverted(raw: string) {
    exists lo: nat, hi: nat :: 1 <= hi < lo <= 65535 && SpellsRange(Trim(raw), lo, hi)
  }

  lemma InvertedIs(raw: string)
    requires ParseSegment(raw) == Err(InvertedRange)
    ensures Inverted(raw)
  {
    var s := Trim(raw);
    var i := FirstIndex(s, '-').value;
    var lo, hi := ParsePort(s[..i]).value, ParsePort(s[i + 1..]).value;
    PortIff(s[..i], lo);
    PortIff(s[i + 1..], hi);
    RangeAtDash(s, lo, hi);
  }

  lemma RangeParts(s: string, lo: nat, hi: nat) returns (i: nat)
    requires SpellsRange(s, lo, hi)
    ensures FirstIndex(s, '-') == Some(i) && Denotes(Trim(s[..i]), lo) && Denotes(Trim(s[i + 1..]), hi)
  {
    RangeAtDash(s, lo, hi);
    i := FirstIndex(s, '-').value;
  }

  lemma DashedFails(raw: string, i: nat, lo: nat, hi: nat)
    requires 1 <= hi < lo <= 65535 && FirstIndex(Trim(raw), '-') == Some(i)
    requires Denotes(Trim(Trim(raw)[..i]), lo) && Denotes(Trim(Trim(raw)[i + 1..]), hi)
    ensures ParseSegment(raw) == Err(InvertedRange)
  {
    PortIff(Trim(raw)[..i], lo);
    PortIff(Trim(raw)[i + 1..], hi);
  }

  lemma InvertedFails(raw: string, lo: nat, hi: nat)
    requires 1 <= hi < lo <= 65535 && SpellsRange(Trim(raw), lo, hi)
    ensures ParseSegment(raw) == Err(InvertedRange)
  {
    var i := RangeParts(Trim(raw), lo, hi);
    DashedFails(raw, i, lo, hi);
  }

  function Between(lo: nat, end: nat): (s: set<nat>)
    ensures forall p :: p in s <==> lo <= p < end
  {
    if end <= lo then {} else Between(lo, end - 1) + {end - 1}
  }

  /** The ports of a range. */
  function Ports(r: Range): (s: set<nat>)
    ensures forall p :: p in s <==> r.lo <= p <= r.hi
  {
    Between(r.lo, r.hi + 1)
  }

  /** The outcome of every segment. */
  function Outcomes(segments: seq<string>): (r: seq<Result<Range, PortError>>)
    ensures |r| == |segments| && forall k | 0 <= k < |r| :: r[k] == ParseSegment(segments[k])
  {
    seq(|segments|, k requires 0 <= k < |segments| => ParseSegment(segments[k]))
  }

  /** The union of the ranges, or the first error. */
  function Union(outcomes: seq<Result<Range, PortError>>): Result<set<nat>, PortError> {
    if outcomes == [] then Ok({})
    else match Union(outcomes[..|outcomes| - 1])
      case Err(e) => Err(e)
      case Ok(ports) => (
        match outcomes[|outcomes| - 1]
        case Err(e) => Err(e)
        case Ok(range) => Ok(ports + Ports(range)))
  }

  predicate IsLeast(m: nat, s: set<nat>) {
    m in s && forall y | y in s :: m <= y
  }

  lemma LeastWith(s: set<nat>, x: nat, m: nat)
    requires x in s && IsLeast(m, s - {x})
    ensures IsLeast(if x < m then x else m, s)
  {
    assert forall y | y in s :: y == x || y in s - {x};
  }

  lemma {:induction false} HasLeast(s: set<nat>)
    requires s != {}
    ensures exists m :: m in s && IsLeast(m, s)
  {
    var x :| x in s;
    if s == {x} {
      assert IsLeast(x, s);
    } else {
      assert s - {x} != {};
      HasLeast(s - {x});
      var m :| m in s - {x} && IsLeast(m, s - {x});
      LeastWith(s, x, m);
    }
  }

  /** What iterating an ordered set yields. */
  function Ascending(s: set<nat>): seq<nat> {
    if s == {} then []
    else
      HasLeast(s);
      var m :| m in s && IsLeast(m, s);
      [m] + Ascending(s - {m})
  }

  function Parsed(input: string): Result<seq<nat>, PortError> {
    if Trim(input) == "" then Err(EmptyExpression)
    else match Union(Outcomes(Split(input, ',')))
      case Err(e) => Err(e)
      case Ok(ports) => Ok(Ascending(ports))
  }

  /** `parse_portset`: a loop over the segments that inserts into one set. */
  method ParsePortset(input: string) returns (r: Result<seq<nat>, PortError>)
    ensures r == Parsed(input)
  {
    if Trim(input) == "" {
      return Err(EmptyExpression);
    }
    var ports: set<nat> := {};
    var segments := Split(input, ',');
    ghost var outcomes := Outcomes(segments);
    var i := 0;
    while i < |segments|
      invariant 0 <= i <= |segments| && Union(outcomes[..i]) == Ok(ports)
    {
      assert outcomes[..i + 1][..i] == outcomes[..i];
      var outcome := ParseSegment(segments[i]);
      match outcome {
        case Err(e) =>
          FirstErrorWins(outcomes, i + 1);
          return Err(e);
        case Ok(range) =>
          ports := Extend(ports, range);
      }
      i := i + 1;
    }
    assert outcomes[..i] == outcomes;
    r := Ok(Ascending(ports));
  }

  method Extend(ports: set<nat>, range: Range) returns (r: set<nat>)
    requires range.lo <= range.hi
    ensures r == ports + Ports(range)
  {
    r := ports;
    var port := range.lo;
    while port <= range.hi
      invariant range.lo <= port <= range.hi + 1
      invariant r == ports + Between(range.lo, port)
    {
      r := r + {port};
      port := port + 1;
    }
    assert port == range.hi + 1;
  }

  lemma {:induction false} FirstErrorWins(outcomes: seq<Result<Range, PortError>>, i: nat)
    requires i <= |outcomes| && Union(outcomes[..i]).Err?
    ensures Union(outcomes) == Union(outcomes[..i])
  {
    if i < |outcomes| {
      var n := |outcomes| - 1;
      assert outcomes[..n][..i] == outcomes[..i];
      FirstErrorWins(outcomes[..n], i);
    } else {
      assert outcomes[..i] == outcomes;
    }
  }

  // ----- what a successful parse means -----

  predicate StrictlyIncreasing(ports: seq<nat>) {
    forall i, j | 0 <= i < j < |ports| :: ports[i] < ports[j]
  }

  lemma {:induction false} AscendingIsSorted(s: set<nat>)
    ensures StrictlyIncreasing(Ascending(s))
    ensures forall p :: p in Ascending(s) <==> p in s
  {
    if s != {} {
      HasLeast(s);
      var m :| m in s && IsLeast(m, s);
      AscendingIsSorted(s - {m});
      var rest := Ascending(s - {m});
      forall i | 0 <= i < |rest|
        ensures m < rest[i]
      {
        assert rest[i] in rest && rest[i] in s - {m};
      }
    }
  }

  /** A segment's outcome names port `p`. */
  predicate Names(outcome: Result<Range, PortError>, p: nat) {
    outcome.Ok? && outcome.value.lo <= p <= outcome.value.hi
  }

  ghost predicate Written(outcomes: seq<Result<Range, PortError>>, p: nat) {
    exists k :: 0 <= k < |outcomes| && Names(outcomes[k], p)
  }

  lemma {:induction false} UnionOk(outcomes: seq<Result<Range, PortError>>)
    ensures Union(outcomes).Ok? <==> forall k | 0 <= k < |outcomes| :: outcomes[k].Ok?
  {
    if outcomes != [] {
      var n := |outcomes| - 1;
      UnionOk(outcomes[..n]);
      assert outcomes == outcomes[..n] + [outcomes[n]];
    }
  }

  lemma {:induction false} UnionMembers(outcomes: seq<Result<Range, PortError>>, p: nat)
    requires Union(outcomes).Ok?
    ensures p in Union(outcomes).value <==> Written(outcomes, p)
  {
    if outcomes != [] {
      var n := |outcomes| - 1;
      UnionMembers(outcomes[..n], p);
      if Written(outcomes[..n], p) {
        var k :| 0 <= k < n && Names(outcomes[..n][k], p);
        assert Names(outcomes[k], p);
      }
      if Written(outcomes, p) && !Names(outcomes[n], p) {
        var k :| 0 <= k < |outcomes| && Names(outcomes[k], p);
        assert Names(outcomes[..n][k], p);
      }
      assert p in Ports(outcomes[n].value) <==> Names(outcomes[n], p);
    }
  }

  ghost predicate NamedIn(segments: seq<string>, p: nat) {
    exists segment, lo: nat, hi: nat :: segment in segments && Spells(segment, lo, hi) && lo <= p <= hi
  }

  lemma WrittenIsNamed(segments: seq<string>, p: nat, k: nat)
    requires k < |segments| && Names(Outcomes(segments)[k], p)
    ensures NamedIn(segments, p)
  {
    var r := Outcomes(segments)[k].value;
    SegmentIff(segments[k], r.lo, r.hi);
    assert segments[k] in segments && Spells(segments[k], r.lo, r.hi);
  }

  lemma NamedIsWritten(segments: seq<string>, p: nat, k: nat, lo: nat, hi: nat)
    requires k < |segments| && Spells(segments[k], lo, hi) && lo <= p <= hi
    ensures Written(Outcomes(segments), p)
  {
    SegmentIff(segments[k], lo, hi);
    assert Names(Outcomes(segments)[k], p);
  }

  lemma WrittenIff(segments: seq<string>, p: nat)
    ensures Written(Outcomes(segments), p) <==> NamedIn(segments, p)
  {
    if k :| 0 <= k < |segments| && Names(Outcomes(segments)[k], p) {
      WrittenIsNamed(segments, p, k);
    }
    if segment, lo: nat, hi: nat :| segment in segments && Spells(segment, lo, hi) && lo <= p <= hi {
      var k :| 0 <= k < |segments| && segments[k] == segment;
      NamedIsWritten(segments, p, k, lo, hi);
    }
  }

  lemma ParsedIsWritten(input: string)
    requires Parsed(input).Ok?
    ensures StrictlyIncreasing(Parsed(input).value)
    ensures forall p :: p in Parsed(input).value <==> Written(Outcomes(Split(input, ',')), p)
  {
    var outcomes := Outcomes(Split(input, ','));
    AscendingIsSorted(Union(outcomes).value);
    forall p: nat
      ensures p in Union(outcomes).value <==> Written(outcomes, p)
    {
      UnionMembers(outcomes, p);
    }
  }

  /** On success the result is strictly increasing and exactly the ports some segment spells. */
  lemma ParsedIsUnion(input: string)
    requires Parsed(input).Ok?
    ensures StrictlyIncreasing(Parsed(input).value)
    ensures forall p :: p in Parsed(input).value <==> NamedIn(Split(input, ','), p)
    ensures forall p | p in Parsed(input).value :: 1 <= p <= 65535
  {
    ParsedIsWritten(input);
    forall p: nat
      ensures p in Parsed(input).value <==> NamedIn(Split(input, ','), p)
    {
      WrittenIff(Split(input, ','), p);
    }
  }

  /** A blank expression would fail anyway, so only the error kind depends on the first check. */
  lemma OkUnion(input: string)
    ensures Parsed(input).Ok? <==> Union(Outcomes(Split(input, ','))).Ok?
  {
    if Trim(input) == "" {
      BlankTrimsToNothing(input);
      SplitWithout(input, ',');
      UnionOk(Outcomes(Split(input, ',')));
      assert Outcomes([input])[0] == Err(EmptySegment);
    }
  }

  /** Parsing succeeds iff every segment spells a port or a range. */
  lemma ParsedOkIff(input: string)
    ensures Parsed(input).Ok?
            <==> forall segment | segment in Split(input, ',') :: exists lo: nat, hi: nat :: Spells(segment, lo, hi)
  {
    var segments := Split(input, ',');
    var outcomes := Outcomes(segments);
    OkUnion(input);
    UnionOk(outcomes);
    forall k | 0 <= k < |segments|
      ensures outcomes[k].Ok? <==> exists lo: nat, hi: nat :: Spells(segments[k], lo, hi)
    {
      SpelledIff(segments[k]);
    }
    assert forall k | 0 <= k < |segments| :: segments[k] in segments;
  }

  lemma SpelledIff(segment: string)
    ensures ParseSegment(segment).Ok? <==> exists lo: nat, hi: nat :: Spells(segment, lo, hi)
  {
    if ParseSegment(segment).Ok? {
      SegmentIff(segment, ParseSegment(segment).value.lo, ParseSegment(segment).value.hi);
    }
    if lo: nat, hi: nat :| Spells(segment, lo, hi) {
      SegmentIff(segment, lo, hi);
    }
  }

  /** Outcome `k` is the first failure. */
  predicate FailsFirst(outcomes: seq<Result<Range, PortError>>, k: nat, e: PortError) {
    k < |outcomes| && outcomes[k] == Err(e) && forall j | 0 <= j < k :: outcomes[j].Ok?
  }

  lemma {:induction false} UnionError(outcomes: seq<Result<Range, PortError>>) returns (k: nat)
    requires Union(outcomes).Err?
    ensures FailsFirst(outcomes, k, Union(outcomes).error)
  {
    var n := |outcomes| - 1;
    if Union(outcomes[..n]).Err? {
      k := UnionError(outcomes[..n]);
    } else {
      k := n;
      UnionOk(outcomes[..n]);
      assert forall j | 0 <= j < n :: outcomes[..n][j] == outcomes[j];
    }
  }

  lemma UnionErrorIff(outcomes: seq<Result<Range, PortError>>, e: PortError)
    ensures Union(outcomes) == Err(e) <==> exists k :: FailsFirst(outcomes, k, e)
  {
    if Union(outcomes).Err? {
      var k := UnionError(outcomes);
    }
    if k :| FailsFirst(outcomes, k, e) {
      UnionOk(outcomes);
      var first := UnionError(outcomes);
      assert k == first;
    }
  }

  /** A failed parse reports a blank expression, or else the error of its first segment that fails. */
  lemma FirstErrorIff(input: string, e: PortError)
    ensures Parsed(input) == Err(e) <==>
            if Blank(input) then e == EmptyExpression
            else exists k :: FailsFirst(Outcomes(Split(input, ',')), k, e)
  {
    BlankTrimsToNothing(input);
    UnionErrorIff(Outcomes(Split(input, ',')), e);
    assert !Blank(input) ==> (Parsed(input) == Err(e) <==> Union(Outcomes(Split(input, ','))) == Err(e));
  }

  lemma {:induction false} UnionConcat(xs: seq<Result<Range, PortError>>, ys: seq<Result<Range, PortError>>)
    ensures Union(xs + ys).Ok? <==> Union(xs).Ok? && Union(ys).Ok?
    ensures Union(xs + ys).Ok? ==> Union(xs + ys).value == Union(xs).value + Union(ys).value
  {
    if ys == [] {
      assert xs + ys == xs;
    } else {
      var n := |ys| - 1;
      assert (xs + ys)[..|xs| + n] == xs + ys[..n];
      UnionConcat(xs, ys[..n]);
    }
  }

  lemma OutcomesConcat(a: string, b: string)
    ensures Outcomes(Split(a + "," + b, ',')) == Outcomes(Split(a, ',')) + Outcomes(Split(b, ','))
  {
    SplitConcat(a, b, ',');
  }

  /** `a,b` parses iff both parts do, and then to the union. */
  lemma ParseOfConcat(a: string, b: string)
    ensures Parsed(a + "," + b).Ok? <==> Parsed(a).Ok? && Parsed(b).Ok?
    ensures Parsed(a + "," + b).Ok? ==>
              forall p :: p in Parsed(a + "," + b).value <==> p in Parsed(a).value || p in Parsed(b).value
  {
    var whole := a + "," + b;
    var xs, ys := Outcomes(Split(a, ',')), Outcomes(Split(b, ','));
    OkUnion(a);
    OkUnion(b);
    OkUnion(whole);
    OutcomesConcat(a, b);
    UnionConcat(xs, ys);
    if Parsed(whole).Ok? {
      ParsedMembers(a);
      ParsedMembers(b);
      ParsedMembers(whole);
    }
  }

  lemma ParsedMembers(input: string)
    requires Parsed(input).Ok?
    ensures forall p :: p in Parsed(input).value <==> p in Union(Outcomes(Split(input, ','))).value
  {
    AscendingIsSorted(Union(Outcomes(Split(input, ','))).value);
  }

  // ----- rendering and parsing back -----

  /** The maximal runs of consecutive ports. */
  function Runs(ports: seq<nat>): (r: seq<Range>)
    ensures ports != [] ==> r != [] && r[|r| - 1].hi == ports[|ports| - 1]
  {
    if ports == [] then []
    else
      var n := |ports| - 1;
      var front := Runs(ports[..n]);
      if front != [] && front[|front| - 1].hi + 1 == ports[n]
      then front[..|front| - 1] + [Range(front[|front| - 1].lo, ports[n])]
      else front + [Range(ports[n], ports[n])]
  }

  function RenderRange(r: Range): string {
    if r.lo == r.hi then Decimal(r.lo) else Decimal(r.lo) + "-" + Decimal(r.hi)
  }

  function RenderAll(rs: seq<Range>): (r: seq<string>)
    ensures |r| == |rs|
  {
    seq(|rs|, i requires 0 <= i < |rs| => RenderRange(rs[i]))
  }

  function Render(ports: seq<nat>): string
    requires ports != []
  {
    Join(RenderAll(Runs(ports)), ',')
  }

  predicate ValidRange(r: Range) {
    1 <= r.lo <= r.hi <= U16_MAX
  }

  lemma ParsePortOfDecimal(n: nat)
    requires 1 <= n <= U16_MAX
    ensures ParsePort(Decimal(n)) == Ok(n)
  {
    var s := Decimal(n);
    assert s[0] in s && s[|s| - 1] in s;
    DigitsSurviveTrim(s);
    ParseOfDecimal(n);
  }

  lemma ParseOfSingle(n: nat)
    requires 1 <= n <= U16_MAX
    ensures ParseSegment(Decimal(n)) == Ok(Range(n, n))
  {
    var s := Decimal(n);
    assert s[0] in s && s[|s| - 1] in s;
    DigitsSurviveTrim(s);
    NotFound(s, '-');
    ParsePortOfDecimal(n);
  }

  lemma ParseOfInterval(lo: nat, hi: nat)
    requires 1 <= lo <= hi <= U16_MAX
    ensures ParseSegment(Decimal(lo) + "-" + Decimal(hi)) == Ok(Range(lo, hi))
  {
    var a, b := Decimal(lo), Decimal(hi);
    var s := a + "-" + b;
    assert a[0] in a && b[|b| - 1] in b && s[0] == a[0] && s[|s| - 1] == b[|b| - 1];
    DigitsSurviveTrim(s);
    FirstIndexAfter(a, '-', b);
    assert s[..|a|] == a && s[|a| + 1..] == b;
    ParsePortOfDecimal(lo);
    ParsePortOfDecimal(hi);
  }

  lemma ParseOfRender(r: Range)
    requires ValidRange(r)
    ensures ParseSegment(RenderRange(r)) == Ok(r)
    ensures ',' !in RenderRange(r)
  {
    if r.lo == r.hi {
      ParseOfSingle(r.lo);
    } else {
      ParseOfInterval(r.lo, r.hi);
    }
  }

  ghost predicate InRuns(rs: seq<Range>, p: nat) {
    exists k :: 0 <= k < |rs| && rs[k].lo <= p <= rs[k].hi
  }

  ghost predicate ValidPorts(ports: seq<nat>) {
    StrictlyIncreasing(ports) && forall i | 0 <= i < |ports| :: 1 <= ports[i] <= U16_MAX
  }

  lemma {:induction false} RunsAreValid(ports: seq<nat>)
    requires ValidPorts(ports)
    ensures forall k | 0 <= k < |Runs(ports)| :: ValidRange(Runs(ports)[k])
  {
    if ports != [] {
      RunsAreValid(ports[..|ports| - 1]);
    }
  }

  lemma ExtendedRun(front: seq<Range>, next: nat, p: nat)
    requires front != [] && front[|front| - 1].hi + 1 == next && front[|front| - 1].lo <= next
    ensures InRuns(front[..|front| - 1] + [Range(front[|front| - 1].lo, next)], p) <==> InRuns(front, p) || p == next
  {
    var n := |front| - 1;
    var rs := front[..n] + [Range(front[n].lo, next)];
    assert forall k | 0 <= k < n :: rs[k] == front[k];
    assert rs[n] == Range(front[n].lo, next);
  }

  lemma AppendedRun(front: seq<Range>, next: nat, p: nat)
    ensures InRuns(front + [Range(next, next)], p) <==> InRuns(front, p) || p == next
  {
    var rs := front + [Range(next, next)];
    assert forall k | 0 <= k < |front| :: rs[k] == front[k];
    assert rs[|front|] == Range(next, next);
  }

  lemma RunsStep(ports: seq<nat>, p: nat)
    requires ValidPorts(ports) && ports != []
    ensures var n := |ports| - 1;
            InRuns(Runs(ports), p) <==> InRuns(Runs(ports[..n]), p) || p == ports[n]
  {
    var n := |ports| - 1;
    var front, rs := Runs(ports[..n]), Runs(ports);
    RunsAreValid(ports);
    if front != [] && front[|front| - 1].hi + 1 == ports[n] {
      ExtendedRun(front, ports[n], p);
    } else {
      assert rs == front + [Range(ports[n], ports[n])];
      AppendedRun(front, ports[n], p);
    }
  }

  /** The runs cover exactly the ports. */
  lemma {:induction false} RunsAreExact(ports: seq<nat>, p: nat)
    requires ValidPorts(ports)
    ensures p in ports <==> InRuns(Runs(ports), p)
  {
    if ports != [] {
      var n := |ports| - 1;
      RunsAreExact(ports[..n], p);
      RunsStep(ports, p);
      assert ports == ports[..n] + [ports[n]];
    }
  }

  /** And they are maximal: at least one port is missing between two of them. */
  lemma {:induction false} RunsAreMaximal(ports: seq<nat>, k: nat)
    requires ValidPorts(ports) && k + 1 < |Runs(ports)|
    ensures Runs(ports)[k].hi + 1 < Runs(ports)[k + 1].lo
  {
    var n := |ports| - 1;
    var front := Runs(ports[..n]);
    if k + 1 < |front| {
      RunsAreMaximal(ports[..n], k);
    }
  }

  lemma {:induction false} SortedIsUnique(xs: seq<nat>, ys: seq<nat>)
    requires StrictlyIncreasing(xs) && StrictlyIncreasing(ys) && forall p :: p in xs <==> p in ys
    ensures xs == ys
  {
    if xs == [] {
      HasMember(ys);
    } else {
      assert xs[0] in ys;
      assert ys[0] in xs;
      assert xs == [xs[0]] + xs[1..] && ys == [ys[0]] + ys[1..];
      assert xs[0] == ys[0];
      forall p
        ensures p in xs[1..] <==> p in ys[1..]
      {
        assert p in xs <==> p in ys;
        assert xs[0] !in xs[1..] && ys[0] !in ys[1..];
      }
      SortedIsUnique(xs[1..], ys[1..]);
    }
  }

  /** Rendering a non-empty port set as maximal decimal ranges and parsing it gives the set back. */
  lemma RenderParsesBack(ports: seq<nat>)
    requires ports != [] && ValidPorts(ports)
    ensures Parsed(Render(ports)) == Ok(ports)
  {
    var rs := Runs(ports);
    var parts := RenderAll(rs);
    var outcomes := Outcomes(parts);
    RunsAreValid(ports);
    forall k | 0 <= k < |rs|
      ensures outcomes[k] == Ok(rs[k]) && ',' !in parts[k]
    {
      ParseOfRender(rs[k]);
    }
    SplitOfJoin(parts, ',');
    UnionOk(outcomes);
    OkUnion(Render(ports));
    var parsed := Parsed(Render(ports)).value;
    ParsedIsWritten(Render(ports));
    forall p
      ensures p in parsed <==> p in ports
    {
      WrittenIsInRuns(outcomes, rs, p);
      RunsAreExact(ports, p);
    }
    SortedIsUnique(parsed, ports);
  }

  lemma WrittenIsInRuns(outcomes: seq<Result<Range, PortError>>, rs: seq<Range>, p: nat)
    requires |outcomes| == |rs| && forall k | 0 <= k < |rs| :: outcomes[k] == Ok(rs[k])
    ensures Written(outcomes, p) <==> InRuns(rs, p)
  {
    if InRuns(rs, p) {
      var k :| 0 <= k < |rs| && rs[k].lo <= p <= rs[k].hi;
      assert Names(outcomes[k], p);
    }
  }
}
