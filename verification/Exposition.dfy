/** The text printer (src/metrics.rs) and a reader of the text it prints: the Prometheus text
    exposition format, version 0.0.4. */
module Exposition {
  import opened Prelude
  import opened Labels
  import opened Metrics
  import opened Counting

  // -------------------------------------------------------------------------
  // Decimal numbers
  // -------------------------------------------------------------------------

  function Digit(d: nat): char
    requires d < 10
  {
    "0123456789"[d]
  }

  function DigitValue(c: char): Option<nat> {
    if '0' <= c <= '9' then Some((c - '0') as nat) else None
  }

  function Decimal(n: nat): string {
    if n < 10 then [Digit(n)] else Decimal(n / 10) + [Digit(n % 10)]
  }

  function ReadDecimal(s: string): Option<nat> {
    if s == "" then None
    else
      var d := DigitValue(s[|s| - 1]);
      if d.None? then None
      else if |s| == 1 then d
      else
        var rest := ReadDecimal(s[..|s| - 1]);
        if rest.None? then None else Some(10 * rest.value + d.value)
  }

  lemma DigitRoundTrip(d: nat)
    requires d < 10
    ensures DigitValue(Digit(d)) == Some(d) && Digit(d) != ' ' && Digit(d) != '\n'
  {
  }

  lemma {:induction false} DecimalRoundTrip(n: nat)
    ensures ReadDecimal(Decimal(n)) == Some(n)
    ensures Decimal(n) != "" && ' ' !in Decimal(n) && '\n' !in Decimal(n)
  {
    DigitRoundTrip(n % 10);
    if n >= 10 {
      DecimalRoundTrip(n / 10);
      var s := Decimal(n);
      assert s[..|s| - 1] == Decimal(n / 10);
    }
  }

  // -------------------------------------------------------------------------
  // Printing
  // -------------------------------------------------------------------------

  function FamilyStem(family: Family): string {
    match family
    case Requests => "requests"
    case Tokens => "tokens"
    case UpstreamErrors => "upstream_errors"
    case RateLimitRejections => "rate_limit_rejections"
    case BudgetRejections => "budget_rejections"
  }

  /** `patchbay_requests_total` and so on. */
  function FamilyName(family: Family): string {
    "patchbay_" + FamilyStem(family) + "_total"
  }

  function FamilyHelp(family: Family): string {
    match family
    case Requests => "Total requests received."
    case Tokens => "Total tokens consumed."
    case UpstreamErrors => "Upstream non-2xx or connection errors."
    case RateLimitRejections => "Requests rejected by rate limiter."
    case BudgetRejections => "Requests rejected by token budget."
  }

  function SampleLine(name: string, p: Pair): string {
    name + p.labels + " " + Decimal(p.value)
  }

  /** The lines of one family; none at all if it has no counters. */
  function FamilyLines(family: Family, ps: seq<Pair>): seq<string> {
    LinesOf(FamilyName(family), FamilyHelp(family), ps)
  }

  function LinesOf(name: string, help: string, ps: seq<Pair>): seq<string> {
    if ps == [] then []
    else ["# HELP " + name + " " + help, "# TYPE " + name + " counter"] + SampleLines(name, ps)
  }

  function SampleLines(name: string, ps: seq<Pair>): seq<string> {
    if ps == [] then [] else SampleLines(name, ps[..|ps| - 1]) + [SampleLine(name, ps[|ps| - 1])]
  }

  /** Every line is followed by a newline. */
  function Text(lines: seq<string>): string {
    if lines == [] then "" else Text(lines[..|lines| - 1]) + lines[|lines| - 1] + "\n"
  }

  lemma {:induction false} TextConcat(a: seq<string>, b: seq<string>)
    ensures Text(a + b) == Text(a) + Text(b)
  {
    if b == [] {
      assert a + b == a;
    } else {
      var init, last := b[..|b| - 1], b[|b| - 1];
      TextConcat(a, init);
      assert a + b == a + init + [last] && b == init + [last];
      TextSnoc(a + init, last);
      TextSnoc(init, last);
      Associate(Text(a), Text(init), last);
      Associate(Text(a), Text(init) + last, "\n");
    }
  }

  lemma TextSnoc(a: seq<string>, line: string)
    ensures Text(a + [line]) == Text(a) + line + "\n"
  {
    assert (a + [line])[..|a|] == a;
  }

  const ALL_FAMILIES: seq<Family> :=
    [Requests, Tokens, UpstreamErrors, RateLimitRejections, BudgetRejections]

  /** One snapshot per family, in the printing order. */
  ghost predicate AreSnapshots(f: Families, snaps: seq<seq<Pair>>) {
    && |snaps| == |ALL_FAMILIES|
    && forall i | 0 <= i < |ALL_FAMILIES| :: IsSnapshot(Get(f, ALL_FAMILIES[i]), snaps[i])
  }

  function PageLines(snaps: seq<seq<Pair>>, n: nat): seq<string>
    requires n <= |snaps| && n <= |ALL_FAMILIES|
  {
    if n == 0 then [] else PageLines(snaps, n - 1) + FamilyLines(ALL_FAMILIES[n - 1], snaps[n - 1])
  }

  /** `text` is what `render` may print for the counters `f`. */
  ghost predicate IsRendering(f: Families, text: string) {
    exists snaps :: AreSnapshots(f, snaps) && text == Text(PageLines(snaps, |ALL_FAMILIES|))
  }

  lemma PrintLine(out: string, lines: seq<string>, line: string)
    ensures out + Text(lines) + line + "\n" == out + Text(lines + [line])
  {
    TextSnoc(lines, line);
    assert out + Text(lines) + line + "\n" == out + (Text(lines) + line + "\n");
  }

  lemma NextSampleLine(head: seq<string>, name: string, ps: seq<Pair>, i: nat)
    requires i < |ps|
    ensures head + SampleLines(name, ps[..i + 1]) == head + SampleLines(name, ps[..i]) + [SampleLine(name, ps[i])]
  {
    assert ps[..i + 1][..i] == ps[..i];
  }

  method WriteFamily(out: string, family: Family, ps: seq<Pair>) returns (out': string)
    ensures out' == out + Text(FamilyLines(family, ps))
  {
    if ps == [] {
      return out;
    }
    var name := FamilyName(family);
    var help, ty := "# HELP " + name + " " + FamilyHelp(family), "# TYPE " + name + " counter";
    out' := out + help + "\n";
    out' := out' + ty + "\n";
    ghost var head := [help, ty];
    assert out' == out + Text(head) by {
      PrintLine(out, [], help);
      PrintLine(out, [help], ty);
      assert [] + [help] == [help] && [help] + [ty] == head && out + Text([]) == out;
    }
    assert head + SampleLines(name, ps[..0]) == head;
    for i := 0 to |ps|
      invariant out' == out + Text(head + SampleLines(name, ps[..i]))
    {
      PrintLine(out, head + SampleLines(name, ps[..i]), SampleLine(name, ps[i]));
      NextSampleLine(head, name, ps, i);
      out' := out' + SampleLine(name, ps[i]) + "\n";
    }
    assert ps[..|ps|] == ps;
  }

  lemma NextFamily(snaps: seq<seq<Pair>>, n: nat)
    requires n < |snaps| && n < |ALL_FAMILIES|
    ensures Text(PageLines(snaps, n + 1)) == Text(PageLines(snaps, n)) + Text(FamilyLines(ALL_FAMILIES[n], snaps[n]))
  {
    TextConcat(PageLines(snaps, n), FamilyLines(ALL_FAMILIES[n], snaps[n]));
  }

  lemma FiveFamilies(s0: seq<Pair>, s1: seq<Pair>, s2: seq<Pair>, s3: seq<Pair>, s4: seq<Pair>)
    ensures Text(PageLines([s0, s1, s2, s3, s4], |ALL_FAMILIES|))
         == "" + Text(FamilyLines(Requests, s0)) + Text(FamilyLines(Tokens, s1))
            + Text(FamilyLines(UpstreamErrors, s2)) + Text(FamilyLines(RateLimitRejections, s3))
            + Text(FamilyLines(BudgetRejections, s4))
  {
    var snaps := [s0, s1, s2, s3, s4];
    NextFamily(snaps, 0);
    NextFamily(snaps, 1);
    NextFamily(snaps, 2);
    NextFamily(snaps, 3);
    NextFamily(snaps, 4);
  }

  lemma FiveSnapshots(f: Families, s0: seq<Pair>, s1: seq<Pair>, s2: seq<Pair>, s3: seq<Pair>, s4: seq<Pair>)
    requires IsSnapshot(f.requests, s0) && IsSnapshot(f.tokens, s1) && IsSnapshot(f.upstreamErrors, s2)
    requires IsSnapshot(f.rateLimitRejections, s3) && IsSnapshot(f.budgetRejections, s4)
    ensures AreSnapshots(f, [s0, s1, s2, s3, s4])
  {
  }

  method WriteFamilies(s0: seq<Pair>, s1: seq<Pair>, s2: seq<Pair>, s3: seq<Pair>, s4: seq<Pair>)
    returns (text: string)
    ensures text == Text(PageLines([s0, s1, s2, s3, s4], |ALL_FAMILIES|))
  {
    text := "";
    text := WriteFamily(text, Requests, s0);
    text := WriteFamily(text, Tokens, s1);
    text := WriteFamily(text, UpstreamErrors, s2);
    text := WriteFamily(text, RateLimitRejections, s3);
    text := WriteFamily(text, BudgetRejections, s4);
    FiveFamilies(s0, s1, s2, s3, s4);
  }

  method Render(h: MetricsHandle) returns (text: string)
    ensures IsRendering(h.View(), text)
  {
    var s0 := h.requests.Snapshot();
    var s1 := h.tokens.Snapshot();
    var s2 := h.upstreamErrors.Snapshot();
    var s3 := h.rateLimitRejections.Snapshot();
    var s4 := h.budgetRejections.Snapshot();
    text := WriteFamilies(s0, s1, s2, s3, s4);
    RenderedBy(h.View(), s0, s1, s2, s3, s4, text);
  }

  lemma RenderedBy(f: Families, s0: seq<Pair>, s1: seq<Pair>, s2: seq<Pair>, s3: seq<Pair>, s4: seq<Pair>, text: string)
    requires IsSnapshot(f.requests, s0) && IsSnapshot(f.tokens, s1) && IsSnapshot(f.upstreamErrors, s2)
    requires IsSnapshot(f.rateLimitRejections, s3) && IsSnapshot(f.budgetRejections, s4)
    requires text == Text(PageLines([s0, s1, s2, s3, s4], |ALL_FAMILIES|))
    ensures IsRendering(f, text)
  {
    FiveSnapshots(f, s0, s1, s2, s3, s4);
  }

  /** CANONICAL TEXT. Equal counters are printed byte for byte the same. */
  lemma RenderingUnique(f: Families, t1: string, t2: string)
    requires IsRendering(f, t1) && IsRendering(f, t2)
    ensures t1 == t2
  {
    var a :| AreSnapshots(f, a) && t1 == Text(PageLines(a, |ALL_FAMILIES|));
    var b :| AreSnapshots(f, b) && t2 == Text(PageLines(b, |ALL_FAMILIES|));
    forall i | 0 <= i < |ALL_FAMILIES| ensures a[i] == b[i] {
      SnapshotUnique(Get(f, ALL_FAMILIES[i]), a[i], b[i]);
    }
    assert a == b;
  }

  /** Histories that are permutations of each other are printed byte for byte the same. */
  lemma PermutedHistoriesPrintAlike(h1: seq<Event>, h2: seq<Event>, t1: string, t2: string)
    requires multiset(h1) == multiset(h2)
    requires IsRendering(After(h1), t1) && IsRendering(After(h2), t2)
    ensures t1 == t2
  {
    OrderIrrelevant(h1, h2);
    RenderingUnique(After(h1), t1, t2);
  }

  // -------------------------------------------------------------------------
  // Reading the text back
  // -------------------------------------------------------------------------

  datatype Sample = Sample(name: string, labels: string, value: nat)

  /** The lines of a text in which every line ends in a newline. */
  function ReadLines(t: string): Option<seq<string>>
    decreases |t|
  {
    if t == "" then Some([])
    else
      SplitAtLength(t, '\n');
      match SplitAt(t, '\n')
      case None => None
      case Some((line, rest)) =>
        var ls := ReadLines(rest);
        if ls.None? then None else Some([line] + ls.value)
  }

  /** Splits `t` at its last space. */
  function SplitLastSpace(t: string): Option<(string, string)> {
    if t == "" then None
    else if t[|t| - 1] == ' ' then Some((t[..|t| - 1], ""))
    else
      var r := SplitLastSpace(t[..|t| - 1]);
      if r.None? then None else Some((r.value.0, r.value.1 + [t[|t| - 1]]))
  }

  /** A sample line: a name, a label set from the first brace on, a value after the last space. */
  function ReadSample(line: string): Option<Sample> {
    match SplitLastSpace(line)
    case None => None
    case Some((front, number)) =>
      match (SplitAt(front, '{'), ReadDecimal(number))
      case (Some((name, labels)), Some(v)) => Some(Sample(name, "{" + labels, v))
      case _ => None
  }

  /** One line of a page; lines that start with `#` are comments. */
  function ReadLine(line: string): Option<seq<Sample>> {
    if line != "" && line[0] == '#' then Some([])
    else
      match ReadSample(line)
      case None => None
      case Some(s) => Some([s])
  }

  function ReadSamples(lines: seq<string>): Option<seq<Sample>> {
    if lines == [] then Some([])
    else
      match (ReadSamples(lines[..|lines| - 1]), ReadLine(lines[|lines| - 1]))
      case (Some(before), Some(last)) => Some(before + last)
      case _ => None
  }

  function ReadPage(t: string): Option<seq<Sample>> {
    match ReadLines(t)
    case None => None
    case Some(lines) => ReadSamples(lines)
  }

  lemma {:induction false} ReadLinesOfText(lines: seq<string>, rest: seq<string>)
    requires forall l | l in lines :: '\n' !in l
    requires ReadLines(Text(rest)) == Some(rest)
    ensures ReadLines(Text(lines + rest)) == Some(lines + rest)
    decreases |lines|
  {
    if lines == [] {
      assert lines + rest == rest;
    } else {
      var n := |lines| - 1;
      ReadFirstLine(lines[n], rest);
      ReadLinesOfText(lines[..n], [lines[n]] + rest);
      assert lines[..n] + ([lines[n]] + rest) == lines + rest;
    }
  }

  lemma ReadFirstLine(line: string, rest: seq<string>)
    requires '\n' !in line && ReadLines(Text(rest)) == Some(rest)
    ensures ReadLines(Text([line] + rest)) == Some([line] + rest)
  {
    TextConcat([line], rest);
    TextSnoc([], line);
    assert [] + [line] == [line];
    SplitAtFirst(line, '\n', Text(rest));
    assert Text([line] + rest) == line + ['\n'] + Text(rest);
  }

  lemma {:induction false} SplitAtLastSpace(s: string, number: string)
    requires ' ' !in number
    ensures SplitLastSpace(s + " " + number) == Some((s, number))
    decreases |number|
  {
    var t := s + " " + number;
    if number == "" {
      assert t[..|t| - 1] == s;
    } else {
      var n := |number| - 1;
      SplitAtLastSpace(s, number[..n]);
      assert t[..|t| - 1] == s + " " + number[..n];
      assert number[..n] + [number[n]] == number;
    }
  }

  predicate IsName(name: string) {
    '{' !in name && '\n' !in name && name != "" && name[0] != '#'
  }

  lemma SampleRoundTrip(name: string, p: Pair)
    requires IsName(name) && p.labels != "" && p.labels[0] == '{'
    ensures ReadSample(SampleLine(name, p)) == Some(Sample(name, p.labels, p.value))
  {
    DecimalRoundTrip(p.value);
    SplitAtLastSpace(name + p.labels, Decimal(p.value));
    SplitAtBrace(name, p.labels);
    ReadSampleParts(SampleLine(name, p), name + p.labels, Decimal(p.value), name, p.labels[1..], p.value);
  }

  lemma ReadSampleParts(line: string, front: string, number: string, name: string, labels: string, v: nat)
    requires SplitLastSpace(line) == Some((front, number))
    requires SplitAt(front, '{') == Some((name, labels)) && ReadDecimal(number) == Some(v)
    ensures ReadSample(line) == Some(Sample(name, "{" + labels, v))
  {
  }

  lemma SplitAtBrace(name: string, labels: string)
    requires '{' !in name && labels != "" && labels[0] == '{'
    ensures SplitAt(name + labels, '{') == Some((name, labels[1..])) && "{" + labels[1..] == labels
  {
    SplitAtFirst(name, '{', labels[1..]);
    assert name + labels == name + ['{'] + labels[1..];
  }

  /** Label strings as the handle forms them: one line, opened by a brace. */
  predicate IsLabels(labels: string) {
    labels != "" && labels[0] == '{' && '\n' !in labels
  }

  function SamplesOf(name: string, ps: seq<Pair>): seq<Sample> {
    seq(|ps|, i requires 0 <= i < |ps| => Sample(name, ps[i].labels, ps[i].value))
  }

  lemma ReadSamplesSnoc(lines: seq<string>, line: string)
    requires ReadSamples(lines).Some? && ReadLine(line).Some?
    ensures ReadSamples(lines + [line]) == Some(ReadSamples(lines).value + ReadLine(line).value)
  {
    assert (lines + [line])[..|lines|] == lines;
  }

  lemma {:induction false} ReadSamplesConcat(a: seq<string>, b: seq<string>)
    requires ReadSamples(a).Some? && ReadSamples(b).Some?
    ensures ReadSamples(a + b) == Some(ReadSamples(a).value + ReadSamples(b).value)
    decreases |b|
  {
    if b == [] {
      assert a + b == a;
      assert ReadSamples(a).value + [] == ReadSamples(a).value;
    } else {
      var n := |b| - 1;
      ReadSamplesConcat(a, b[..n]);
      ReadSamplesSnoc(a + b[..n], b[n]);
      assert a + b == a + b[..n] + [b[n]];
      Associate(ReadSamples(a).value, ReadSamples(b[..n]).value, ReadLine(b[n]).value);
    }
  }

  lemma SampleLineReads(name: string, p: Pair)
    requires IsName(name) && IsLabels(p.labels)
    ensures ReadLine(SampleLine(name, p)) == Some([Sample(name, p.labels, p.value)])
    ensures '\n' !in SampleLine(name, p)
  {
    SampleRoundTrip(name, p);
    DecimalRoundTrip(p.value);
    assert SampleLine(name, p)[0] == name[0];
  }

  lemma {:induction false} ReadSampleLines(name: string, ps: seq<Pair>)
    requires IsName(name) && forall p | p in ps :: IsLabels(p.labels)
    ensures ReadSamples(SampleLines(name, ps)) == Some(SamplesOf(name, ps))
    ensures forall l | l in SampleLines(name, ps) :: '\n' !in l
  {
    if ps == [] {
      assert SamplesOf(name, ps) == [];
    } else {
      var n := |ps| - 1;
      ReadSampleLines(name, ps[..n]);
      SampleLineReads(name, ps[n]);
      ReadSamplesSnoc(SampleLines(name, ps[..n]), SampleLine(name, ps[n]));
      SamplesOfLast(name, ps);
    }
  }

  lemma SamplesOfLast(name: string, ps: seq<Pair>)
    requires ps != []
    ensures var n := |ps| - 1;
            SamplesOf(name, ps) == SamplesOf(name, ps[..n]) + [Sample(name, ps[n].labels, ps[n].value)]
  {
  }

  lemma CommentsRead(a: string, b: string)
    requires a != "" && b != "" && a[0] == '#' && b[0] == '#'
    ensures ReadSamples([a, b]) == Some([])
  {
    var none: seq<Sample> := [];
    assert ReadLine(a) == Some(none) && ReadLine(b) == Some(none) && none + none == none;
    ReadSamplesSnoc([], a);
    ReadSamplesSnoc([a], b);
    assert [] + [a] == [a] && [a] + [b] == [a, b];
  }

  lemma StemsAreGood(family: Family)
    ensures '{' !in FamilyStem(family) && '\n' !in FamilyStem(family)
  {
    match family
    case Requests => ShortStemsAreGood();
    case Tokens => ShortStemsAreGood();
    case UpstreamErrors => ErrorStemIsGood();
    case RateLimitRejections => RejectionStemIsGood();
    case BudgetRejections => BudgetStemIsGood();
  }

  lemma ShortStemsAreGood()
    ensures '{' !in "requests" && '\n' !in "requests" && '{' !in "tokens" && '\n' !in "tokens"
  {
  }

  lemma ErrorStemIsGood()
    ensures '{' !in "upstream_errors" && '\n' !in "upstream_errors"
  {
  }

  lemma RejectionStemIsGood()
    ensures '{' !in "rate_limit_rejections" && '\n' !in "rate_limit_rejections"
  {
  }

  lemma BudgetStemIsGood()
    ensures '{' !in "budget_rejections" && '\n' !in "budget_rejections"
  {
  }

  lemma NamesAreGood(family: Family)
    ensures IsName(FamilyName(family))
  {
    StemsAreGood(family);
    assert '{' !in "patchbay_" && '\n' !in "patchbay_" && '{' !in "_total" && '\n' !in "_total";
    assert FamilyName(family)[0] == 'p';
  }

  lemma TotalsHelp()
    ensures '\n' !in FamilyHelp(Requests) && '\n' !in FamilyHelp(Tokens)
  {
  }

  lemma ErrorsHelp()
    ensures '\n' !in FamilyHelp(UpstreamErrors)
  {
  }

  lemma RejectionsHelp()
    ensures '\n' !in FamilyHelp(RateLimitRejections) && '\n' !in FamilyHelp(BudgetRejections)
  {
  }

  lemma HelpsAreGood(family: Family)
    ensures '\n' !in FamilyHelp(family)
  {
    TotalsHelp();
    ErrorsHelp();
    RejectionsHelp();
    assert family in {Requests, Tokens, UpstreamErrors, RateLimitRejections, BudgetRejections};
  }

  lemma CommentLines(family: Family)
    ensures '\n' !in "# HELP " + FamilyName(family) + " " + FamilyHelp(family)
    ensures '\n' !in "# TYPE " + FamilyName(family) + " counter"
  {
    NamesAreGood(family);
    HelpsAreGood(family);
    assert '\n' !in "# HELP " && '\n' !in "# TYPE " && '\n' !in " counter";
  }

  lemma ReadFamilyLines(family: Family, ps: seq<Pair>)
    requires forall p | p in ps :: IsLabels(p.labels)
    ensures ReadSamples(FamilyLines(family, ps)) == Some(SamplesOf(FamilyName(family), ps))
    ensures forall l | l in FamilyLines(family, ps) :: '\n' !in l
  {
    var name := FamilyName(family);
    if ps == [] {
      assert SamplesOf(name, ps) == [];
    } else {
      var help, ty := "# HELP " + name + " " + FamilyHelp(family), "# TYPE " + name + " counter";
      NamesAreGood(family);
      CommentLines(family);
      ReadBlock(help, ty, name, ps);
    }
  }

  /** Two comment lines and the samples below them. */
  lemma ReadBlock(help: string, ty: string, name: string, ps: seq<Pair>)
    requires help != "" && ty != "" && help[0] == '#' && ty[0] == '#' && '\n' !in help && '\n' !in ty
    requires IsName(name) && forall p | p in ps :: IsLabels(p.labels)
    ensures ReadSamples([help, ty] + SampleLines(name, ps)) == Some(SamplesOf(name, ps))
    ensures forall l | l in [help, ty] + SampleLines(name, ps) :: '\n' !in l
  {
    ReadSampleLines(name, ps);
    CommentsRead(help, ty);
    ReadSamplesConcat([help, ty], SampleLines(name, ps));
    assert [] + SamplesOf(name, ps) == SamplesOf(name, ps);
  }

  function PageSamples(snaps: seq<seq<Pair>>, n: nat): seq<Sample>
    requires n <= |snaps| && n <= |ALL_FAMILIES|
  {
    if n == 0 then [] else PageSamples(snaps, n - 1) + SamplesOf(FamilyName(ALL_FAMILIES[n - 1]), snaps[n - 1])
  }

  lemma {:induction false} ReadPageLines(snaps: seq<seq<Pair>>, n: nat)
    requires n <= |snaps| && n <= |ALL_FAMILIES|
    requires forall ps: seq<Pair>, p: Pair | ps in snaps && p in ps :: IsLabels(p.labels)
    ensures ReadSamples(PageLines(snaps, n)) == Some(PageSamples(snaps, n))
    ensures forall l | l in PageLines(snaps, n) :: '\n' !in l
  {
    if n > 0 {
      ReadPageLines(snaps, n - 1);
      ReadFamilyLines(ALL_FAMILIES[n - 1], snaps[n - 1]);
      ReadSamplesConcat(PageLines(snaps, n - 1), FamilyLines(ALL_FAMILIES[n - 1], snaps[n - 1]));
    }
  }

  lemma {:induction false} InPageSamples(snaps: seq<seq<Pair>>, n: nat, s: Sample)
    requires n <= |snaps| && n <= |ALL_FAMILIES|
    ensures s in PageSamples(snaps, n)
       <==> exists i | 0 <= i < n :: s in SamplesOf(FamilyName(ALL_FAMILIES[i]), snaps[i])
  {
    if n > 0 {
      InPageSamples(snaps, n - 1, s);
    }
  }

  lemma FamilyNamesDiffer(i: nat, j: nat)
    requires i < |ALL_FAMILIES| && j < |ALL_FAMILIES|
    requires FamilyName(ALL_FAMILIES[i]) == FamilyName(ALL_FAMILIES[j])
    ensures i == j
  {
    assert |FamilyStem(Requests)| == 8 && |FamilyStem(Tokens)| == 6 && |FamilyStem(UpstreamErrors)| == 15;
    assert |FamilyStem(RateLimitRejections)| == 21 && |FamilyStem(BudgetRejections)| == 17;
  }

  lemma InSamplesOf(name: string, ps: seq<Pair>, s: Sample)
    ensures s in SamplesOf(name, ps) <==> s.name == name && s.value < U64_MODULUS && Pair(s.labels, s.value) in ps
  {
    if s in SamplesOf(name, ps) {
      var i :| 0 <= i < |ps| && SamplesOf(name, ps)[i] == s;
      assert ps[i] == Pair(s.labels, s.value);
    }
    if s.name == name && s.value < U64_MODULUS && Pair(s.labels, s.value) in ps {
      var i :| 0 <= i < |ps| && ps[i] == Pair(s.labels, s.value);
      assert SamplesOf(name, ps)[i] == s;
    }
  }

  /** Label strings that are formatted label sets. */
  ghost predicate IsFormatted(labels: string) {
    exists ls :: ls != [] && GoodNames(ls) && labels == LabelSet(ls)
  }

  /** Every stored label string is a label set that the handle has formatted. */
  lemma StoredLabels(h: seq<Event>, family: Family, labels: string)
    requires labels in Get(After(h), family)
    ensures IsFormatted(labels) && IsLabels(labels)
  {
    AfterPresence(h, family, labels);
    TouchedLabels(h, family, labels);
    var ls :| ls != [] && GoodNames(ls) && labels == LabelSet(ls);
    LabelSetNoNewline(ls);
  }

  lemma {:induction false} TouchedLabels(h: seq<Event>, family: Family, labels: string)
    requires TouchedBy(h, family, labels)
    ensures IsFormatted(labels)
  {
    var n := |h| - 1;
    if TouchedBy(h[..n], family, labels) {
      TouchedLabels(h[..n], family, labels);
    } else {
      IncrementLabels(h[n]);
    }
  }

  function TokenLabels(key: string, kind: Kind): seq<Label> {
    [Label("key", key), Label("kind", KindName(kind))]
  }

  lemma TokenLabelFormatted(key: string, kind: Kind)
    ensures GoodNames(TokenLabels(key, kind)) && TokenLabel(key, kind) == LabelSet(TokenLabels(key, kind))
    ensures IsFormatted(TokenLabel(key, kind))
  {
    TokenLabelIsSet(key, kind);
  }

  /** The labels of an event that has a counter of its own. */
  function LabelsOf(ev: Event): seq<Label>
    requires !ev.TokenUse?
  {
    match ev
    case Request(b, m, s) => RequestLabels(b, m, s)
    case UpstreamError(b) => [Label("backend", b)]
    case RateLimited(k) => [Label("key", k)]
    case OverBudget(k) => [Label("key", k)]
  }

  lemma OwnLabelIsSet(ev: Event)
    requires !ev.TokenUse?
    ensures OwnIncrement(ev).labels == LabelSet(LabelsOf(ev))
  {
    match ev
    case Request(b, m, s) => RequestLabelIsSet(b, m, s);
    case UpstreamError(b) => BackendLabelIsSet(b);
    case RateLimited(k) => KeyLabelIsSet(k);
    case OverBudget(k) => KeyLabelIsSet(k);
  }

  lemma OwnNamesAreGood(ev: Event)
    requires !ev.TokenUse?
    ensures LabelsOf(ev) != [] && GoodNames(LabelsOf(ev))
  {
    match ev
    case Request(b, m, s) => RequestNamesAreGood(b, m, s);
    case UpstreamError(b) => BackendNameIsGood(b);
    case RateLimited(k) => KeyNameIsGood(k);
    case OverBudget(k) => KeyNameIsGood(k);
  }

  lemma BackendNameIsGood(b: string)
    ensures GoodNames([Label("backend", b)])
  {
  }

  lemma KeyNameIsGood(k: string)
    ensures GoodNames([Label("key", k)])
  {
  }

  lemma IncrementLabels(ev: Event)
    ensures forall inc | inc in Increments(ev) :: IsFormatted(inc.labels)
  {
    if ev.TokenUse? {
      TokenLabelFormatted(ev.key, Prompt);
      TokenLabelFormatted(ev.key, Completion);
      TokenLabelFormatted(ev.key, Kind.Total);
    } else {
      OwnLabelIsSet(ev);
      OwnNamesAreGood(ev);
    }
  }

  lemma SnapshotLabels(h: seq<Event>, snaps: seq<seq<Pair>>)
    requires AreSnapshots(After(h), snaps)
    ensures forall ps: seq<Pair>, p: Pair | ps in snaps && p in ps :: IsLabels(p.labels)
  {
    forall ps: seq<Pair>, p: Pair | ps in snaps && p in ps ensures IsLabels(p.labels) {
      var i :| 0 <= i < |snaps| && snaps[i] == ps;
      StoredLabels(h, ALL_FAMILIES[i], p.labels);
    }
  }

  lemma FamilyIndex(family: Family) returns (j: nat)
    ensures j < |ALL_FAMILIES| && ALL_FAMILIES[j] == family
  {
    j := match family
         case Requests => 0 case Tokens => 1 case UpstreamErrors => 2
         case RateLimitRejections => 3 case BudgetRejections => 4;
  }

  /** The samples of a page are exactly the stored counters. */
  lemma SamplesAreCounters(f: Families, snaps: seq<seq<Pair>>, family: Family, labels: string, value: nat)
    requires AreSnapshots(f, snaps)
    ensures Sample(FamilyName(family), labels, value) in PageSamples(snaps, |ALL_FAMILIES|)
       <==> labels in Get(f, family) && Get(f, family)[labels] == value
  {
    var s := Sample(FamilyName(family), labels, value);
    var j := FamilyIndex(family);
    InPageSamples(snaps, |ALL_FAMILIES|, s);
    InSamplesOf(FamilyName(family), snaps[j], s);
    if i :| 0 <= i < |ALL_FAMILIES| && s in SamplesOf(FamilyName(ALL_FAMILIES[i]), snaps[i]) {
      InSamplesOf(FamilyName(ALL_FAMILIES[i]), snaps[i], s);
      FamilyNamesDiffer(i, j);
    }
  }

  lemma ReadRendering(h: seq<Event>, snaps: seq<seq<Pair>>)
    requires AreSnapshots(After(h), snaps)
    ensures ReadPage(Text(PageLines(snaps, |ALL_FAMILIES|))) == Some(PageSamples(snaps, |ALL_FAMILIES|))
  {
    SnapshotLabels(h, snaps);
    ReadPageLines(snaps, |ALL_FAMILIES|);
    var lines := PageLines(snaps, |ALL_FAMILIES|);
    ReadLinesOfText(lines, []);
    assert lines + [] == lines;
  }

  /** The samples of one name, in page order. */
  function Named(samples: seq<Sample>, name: string): seq<Sample> {
    if samples == [] then []
    else
      var n := |samples| - 1;
      Named(samples[..n], name) + (if samples[n].name == name then [samples[n]] else [])
  }

  lemma {:induction false} NamedConcat(a: seq<Sample>, b: seq<Sample>, name: string)
    ensures Named(a + b, name) == Named(a, name) + Named(b, name)
  {
    if b == [] {
      assert a + b == a;
    } else {
      var n := |b| - 1;
      NamedConcat(a, b[..n], name);
      assert (a + b)[..|a + b| - 1] == a + b[..n];
    }
  }

  lemma {:induction false} NamedAlike(samples: seq<Sample>, name: string, other: string)
    requires forall s | s in samples :: s.name == name
    ensures Named(samples, other) == if name == other then samples else []
  {
    if samples != [] {
      var n := |samples| - 1;
      NamedAlike(samples[..n], name, other);
      assert samples == samples[..n] + [samples[n]];
    }
  }

  lemma NamedNext(before: seq<Sample>, other: string, ps: seq<Pair>, name: string)
    requires other != name
    ensures Named(before + SamplesOf(other, ps), name) == Named(before, name)
  {
    NamedConcat(before, SamplesOf(other, ps), name);
    NamedAlike(SamplesOf(other, ps), other, name);
  }

  lemma NamedOwn(before: seq<Sample>, name: string, ps: seq<Pair>)
    requires Named(before, name) == []
    ensures Named(before + SamplesOf(name, ps), name) == SamplesOf(name, ps)
  {
    NamedConcat(before, SamplesOf(name, ps), name);
    NamedAlike(SamplesOf(name, ps), name, name);
  }

  function JoinSamples(names: seq<string>, snaps: seq<seq<Pair>>, n: nat): seq<Sample>
    requires n <= |snaps| && n <= |names|
  {
    if n == 0 then [] else JoinSamples(names, snaps, n - 1) + SamplesOf(names[n - 1], snaps[n - 1])
  }

  lemma {:induction false} NamedInJoin(names: seq<string>, snaps: seq<seq<Pair>>, n: nat, j: nat)
    requires n <= |snaps| && n <= |names| && j < |snaps| && j < |names|
    requires forall i | 0 <= i < |names| && i != j :: names[i] != names[j]
    ensures Named(JoinSamples(names, snaps, n), names[j]) == if j < n then SamplesOf(names[j], snaps[j]) else []
  {
    if n > 0 {
      NamedInJoin(names, snaps, n - 1, j);
      if n - 1 == j {
        NamedOwn(JoinSamples(names, snaps, j), names[j], snaps[j]);
      } else {
        NamedNext(JoinSamples(names, snaps, n - 1), names[n - 1], snaps[n - 1], names[j]);
      }
    }
  }

  lemma {:induction false} PageIsJoin(names: seq<string>, snaps: seq<seq<Pair>>, n: nat)
    requires n <= |snaps| && n <= |ALL_FAMILIES| == |names|
    requires forall i | 0 <= i < |names| :: names[i] == FamilyName(ALL_FAMILIES[i])
    ensures PageSamples(snaps, n) == JoinSamples(names, snaps, n)
  {
    if n > 0 {
      PageIsJoin(names, snaps, n - 1);
    }
  }

  lemma NamedOnPage(snaps: seq<seq<Pair>>, j: nat)
    requires |snaps| == |ALL_FAMILIES| && j < |ALL_FAMILIES|
    ensures Named(PageSamples(snaps, |ALL_FAMILIES|), FamilyName(ALL_FAMILIES[j]))
         == SamplesOf(FamilyName(ALL_FAMILIES[j]), snaps[j])
  {
    var names := seq(|ALL_FAMILIES|, i requires 0 <= i < |ALL_FAMILIES| => FamilyName(ALL_FAMILIES[i]));
    forall i | 0 <= i < |names| && i != j ensures names[i] != names[j] {
      if names[i] == names[j] {
        FamilyNamesDiffer(i, j);
      }
    }
    PageIsJoin(names, snaps, |names|);
    NamedInJoin(names, snaps, |names|, j);
  }

  lemma {:induction false} PageNames(snaps: seq<seq<Pair>>, n: nat)
    requires n <= |snaps| && n <= |ALL_FAMILIES|
    ensures forall s | s in PageSamples(snaps, n) :: exists family :: s.name == FamilyName(family)
  {
    if n > 0 {
      PageNames(snaps, n - 1);
    }
  }

  /** ROUND TRIP. Reading a printed page gives back every family's counters, and nothing else: the
      samples under a family's name are, in page order, its sorted snapshot, and there are no samples
      under any other name. A family without counters has none. */
  lemma PageRoundTrip(h: seq<Event>, text: string, family: Family) returns (ps: seq<Pair>)
    requires IsRendering(After(h), text)
    ensures ReadPage(text).Some? && IsSnapshot(Get(After(h), family), ps)
    ensures Named(ReadPage(text).value, FamilyName(family)) == SamplesOf(FamilyName(family), ps)
    ensures forall s | s in ReadPage(text).value :: exists f :: s.name == FamilyName(f)
  {
    var snaps :| AreSnapshots(After(h), snaps) && text == Text(PageLines(snaps, |ALL_FAMILIES|));
    ReadRendering(h, snaps);
    var j := FamilyIndex(family);
    NamedOnPage(snaps, j);
    PageNames(snaps, |ALL_FAMILIES|);
    ps := snaps[j];
  }

  /** A sample is on the page exactly if its family holds that label string with that value. */
  lemma PageMembers(h: seq<Event>, text: string, family: Family, labels: string, value: nat)
    requires IsRendering(After(h), text)
    ensures ReadPage(text).Some?
    ensures Sample(FamilyName(family), labels, value) in ReadPage(text).value
       <==> labels in Get(After(h), family) && Get(After(h), family)[labels] == value
  {
    var snaps :| AreSnapshots(After(h), snaps) && text == Text(PageLines(snaps, |ALL_FAMILIES|));
    ReadRendering(h, snaps);
    SamplesAreCounters(After(h), snaps, family, labels, value);
  }

  /** A stored label string that reads as `ls` is the one formatted from `ls`. */
  lemma ReadStored(h: seq<Event>, family: Family, labels: string, ls: seq<Label>)
    requires labels in Get(After(h), family)
    requires ls != [] && GoodNames(ls)
    ensures ReadSet(labels) == Some(ls) <==> labels == LabelSet(ls)
  {
    StoredLabels(h, family, labels);
    var formatted :| formatted != [] && GoodNames(formatted) && labels == LabelSet(formatted);
    LabelSetRoundTrip(formatted);
    LabelSetRoundTrip(ls);
  }

  /** FROM EVENTS TO THE PAGE AND BACK. After any history, reading the page and then a sample's labels
      yields each kind of event exactly if it occurred, once, with the number of its occurrences. */
  lemma PageTellsCounts(h: seq<Event>, text: string, ev: Event, s: Sample)
    requires IsRendering(After(h), text) && !ev.TokenUse?
    ensures ReadPage(text).Some?
    ensures var own := OwnIncrement(ev);
            s in ReadPage(text).value && s.name == FamilyName(own.family) && ReadSet(s.labels) == Some(LabelsOf(ev))
            <==> ev in h && s == Sample(FamilyName(own.family), own.labels, Count(h, ev) % U64_MODULUS)
  {
    var own := OwnIncrement(ev);
    OwnLabelIsSet(ev);
    OwnNamesAreGood(ev);
    LabelSetRoundTrip(LabelsOf(ev));
    ExactCount(h, ev);
    PageMembers(h, text, own.family, s.labels, s.value);
    if s.labels in Get(After(h), own.family) {
      ReadStored(h, own.family, s.labels, LabelsOf(ev));
    }
  }

  /** The same for the tokens of each kind that were used under each key. */
  lemma PageTellsTokens(h: seq<Event>, text: string, key: string, kind: Kind, s: Sample)
    requires IsRendering(After(h), text)
    ensures ReadPage(text).Some?
    ensures s in ReadPage(text).value && s.name == FamilyName(Tokens) && ReadSet(s.labels) == Some(TokenLabels(key, kind))
       <==> UsedTokens(h, key)
            && s == Sample(FamilyName(Tokens), TokenLabel(key, kind), TokensUsed(h, key, kind) % U64_MODULUS)
  {
    TokenLabelFormatted(key, kind);
    LabelSetRoundTrip(TokenLabels(key, kind));
    ExactTokens(h, key, kind);
    PageMembers(h, text, Tokens, s.labels, s.value);
    if s.labels in Get(After(h), Tokens) {
      ReadStored(h, Tokens, s.labels, TokenLabels(key, kind));
    }
  }

  // -------------------------------------------------------------------------
  // The page by name
  // -------------------------------------------------------------------------

  lemma LongNames()
    ensures FamilyName(Requests) == "patchbay_requests_total" && FamilyName(Tokens) == "patchbay_tokens_total"
    ensures FamilyName(UpstreamErrors) == "patchbay_upstream_errors_total"
  {
  }

  lemma RateLimitName()
    ensures FamilyName(RateLimitRejections) == "patchbay_rate_limit_rejections_total"
  {
  }

  lemma BudgetName()
    ensures FamilyName(BudgetRejections) == "patchbay_budget_rejections_total"
  {
  }

  /** The lines of a family's samples. */
  lemma {:induction false} SampleLinesExactly(name: string, ps: seq<Pair>, i: nat)
    requires i < |ps|
    ensures |SampleLines(name, ps)| == |ps|
    ensures SampleLines(name, ps)[i] == name + ps[i].labels + " " + Decimal(ps[i].value)
    decreases |ps|
  {
    var n := |ps| - 1;
    if i < n {
      SampleLinesExactly(name, ps[..n], i);
    } else if n > 0 {
      SampleLinesExactly(name, ps[..n], 0);
    }
  }

  /** THE PAGE, by name: a request sample shows how often that backend, model and status occurred. */
  lemma PageShowsRequests(h: seq<Event>, text: string, backend: string, model: string, status: string, value: nat)
    requires IsRendering(After(h), text)
    ensures ReadPage(text).Some?
    ensures Sample("patchbay_requests_total",
                   LabelSet([Label("backend", backend), Label("model", model), Label("status", status)]), value)
              in ReadPage(text).value
       <==> Request(backend, model, status) in h && value == multiset(h)[Request(backend, model, status)] % U64_MODULUS
  {
    LongNames();
    PageShowsEvent(h, text, Request(backend, model, status), Requests,
                   [Label("backend", backend), Label("model", model), Label("status", status)], value);
  }

  lemma PageShowsEvent(h: seq<Event>, text: string, ev: Event, family: Family, ls: seq<Label>, value: nat)
    requires IsRendering(After(h), text) && !ev.TokenUse?
    requires OwnIncrement(ev).family == family && LabelsOf(ev) == ls
    ensures ReadPage(text).Some?
    ensures Sample(FamilyName(family), LabelSet(ls), value) in ReadPage(text).value
       <==> ev in h && value == multiset(h)[ev] % U64_MODULUS
  {
    OwnLabelIsSet(ev);
    ExactCount(h, ev);
    CountIsMultiplicity(h, ev);
    PageMembers(h, text, family, LabelSet(ls), value);
  }

  lemma PageShowsErrors(h: seq<Event>, text: string, backend: string, value: nat)
    requires IsRendering(After(h), text)
    ensures ReadPage(text).Some?
    ensures Sample("patchbay_upstream_errors_total", LabelSet([Label("backend", backend)]), value) in ReadPage(text).value
       <==> UpstreamError(backend) in h && value == multiset(h)[UpstreamError(backend)] % U64_MODULUS
  {
    LongNames();
    PageShowsEvent(h, text, UpstreamError(backend), UpstreamErrors, [Label("backend", backend)], value);
  }

  lemma PageShowsRateLimits(h: seq<Event>, text: string, key: string, value: nat)
    requires IsRendering(After(h), text)
    ensures ReadPage(text).Some?
    ensures Sample("patchbay_rate_limit_rejections_total", LabelSet([Label("key", key)]), value) in ReadPage(text).value
       <==> RateLimited(key) in h && value == multiset(h)[RateLimited(key)] % U64_MODULUS
  {
    RateLimitName();
    PageShowsEvent(h, text, RateLimited(key), RateLimitRejections, [Label("key", key)], value);
  }

  lemma PageShowsBudgets(h: seq<Event>, text: string, key: string, value: nat)
    requires IsRendering(After(h), text)
    ensures ReadPage(text).Some?
    ensures Sample("patchbay_budget_rejections_total", LabelSet([Label("key", key)]), value) in ReadPage(text).value
       <==> OverBudget(key) in h && value == multiset(h)[OverBudget(key)] % U64_MODULUS
  {
    BudgetName();
    PageShowsEvent(h, text, OverBudget(key), BudgetRejections, [Label("key", key)], value);
  }

  lemma PageShowsKind(h: seq<Event>, text: string, key: string, kind: Kind, name: string, page: string, sum: nat, value: nat)
    requires IsRendering(After(h), text) && KindName(kind) == name && page == FamilyName(Tokens)
    requires TokensUsed(h, key, kind) == sum
    ensures ReadPage(text).Some?
    ensures Sample(page, LabelSet([Label("key", key), Label("kind", name)]), value) in ReadPage(text).value
       <==> UsedTokens(h, key) && value == sum % U64_MODULUS
  {
    TokenLabelIsSet(key, kind);
    ExactTokens(h, key, kind);
    PageMembers(h, text, Tokens, LabelSet([Label("key", key), Label("kind", name)]), value);
  }

  /** A token sample shows, under each kind's own name, the sum of just that number. */
  lemma PageShowsPrompt(h: seq<Event>, text: string, key: string, value: nat)
    requires IsRendering(After(h), text)
    ensures ReadPage(text).Some?
    ensures Sample("patchbay_tokens_total", LabelSet([Label("key", key), Label("kind", "prompt")]), value)
              in ReadPage(text).value
       <==> UsedTokens(h, key) && value == PromptSum(h, key) % U64_MODULUS
  {
    LongNames();
    PromptSumIs(h, key);
    PageShowsKind(h, text, key, Prompt, "prompt", "patchbay_tokens_total", PromptSum(h, key), value);
  }

  lemma PageShowsCompletion(h: seq<Event>, text: string, key: string, value: nat)
    requires IsRendering(After(h), text)
    ensures ReadPage(text).Some?
    ensures Sample("patchbay_tokens_total", LabelSet([Label("key", key), Label("kind", "completion")]), value)
              in ReadPage(text).value
       <==> UsedTokens(h, key) && value == CompletionSum(h, key) % U64_MODULUS
  {
    LongNames();
    CompletionSumIs(h, key);
    PageShowsKind(h, text, key, Completion, "completion", "patchbay_tokens_total", CompletionSum(h, key), value);
  }

  lemma PageShowsTotal(h: seq<Event>, text: string, key: string, value: nat)
    requires IsRendering(After(h), text)
    ensures ReadPage(text).Some?
    ensures Sample("patchbay_tokens_total", LabelSet([Label("key", key), Label("kind", "total")]), value)
              in ReadPage(text).value
       <==> UsedTokens(h, key) && value == TotalSum(h, key) % U64_MODULUS
  {
    LongNames();
    TotalSumIs(h, key);
    PageShowsKind(h, text, key, Kind.Total, "total", "patchbay_tokens_total", TotalSum(h, key), value);
  }

  /** One family as it is printed: nothing, or its help, its type and its samples. */
  function Block(name: string, help: string, ps: seq<Pair>): string {
    if ps == [] then ""
    else "# HELP " + name + " " + help + "\n" + "# TYPE " + name + " counter" + "\n" + Text(SampleLines(name, ps))
  }

  lemma BlockOfFamily(family: Family, ps: seq<Pair>)
    ensures Text(FamilyLines(family, ps)) == Block(FamilyName(family), FamilyHelp(family), ps)
  {
    BlockOfLines(FamilyName(family), FamilyHelp(family), ps);
  }

  lemma BlockOfLines(name: string, help: string, ps: seq<Pair>)
    ensures Text(LinesOf(name, help, ps)) == Block(name, help, ps)
  {
    if ps != [] {
      BlockText("# HELP " + name + " " + help, "# TYPE " + name + " counter", SampleLines(name, ps));
    }
  }

  lemma BlockText(help: string, ty: string, lines: seq<string>)
    ensures Text([help, ty] + lines) == help + "\n" + ty + "\n" + Text(lines)
  {
    TextConcat([help, ty], lines);
    HeaderText(help, ty);
    Associate(help + "\n", ty, "\n");
  }

  /** THE LAYOUT OF A PAGE: five families in this order and under these names, each with its help, its
      type and its samples in label order. */
  lemma PageLayout(f: Families, text: string)
    returns (s0: seq<Pair>, s1: seq<Pair>, s2: seq<Pair>, s3: seq<Pair>, s4: seq<Pair>)
    requires IsRendering(f, text)
    ensures IsSnapshot(f.requests, s0) && IsSnapshot(f.tokens, s1) && IsSnapshot(f.upstreamErrors, s2)
    ensures IsSnapshot(f.rateLimitRejections, s3) && IsSnapshot(f.budgetRejections, s4)
    ensures text == "" + Block("patchbay_requests_total", "Total requests received.", s0)
                  + Block("patchbay_tokens_total", "Total tokens consumed.", s1)
                  + Block("patchbay_upstream_errors_total", "Upstream non-2xx or connection errors.", s2)
                  + Block("patchbay_rate_limit_rejections_total", "Requests rejected by rate limiter.", s3)
                  + Block("patchbay_budget_rejections_total", "Requests rejected by token budget.", s4)
  {
    var snaps :| AreSnapshots(f, snaps) && text == Text(PageLines(snaps, |ALL_FAMILIES|));
    s0, s1, s2, s3, s4 := snaps[0], snaps[1], snaps[2], snaps[3], snaps[4];
    assert IsSnapshot(Get(f, ALL_FAMILIES[0]), s0) && IsSnapshot(Get(f, ALL_FAMILIES[1]), s1);
    assert IsSnapshot(Get(f, ALL_FAMILIES[2]), s2) && IsSnapshot(Get(f, ALL_FAMILIES[3]), s3);
    assert IsSnapshot(Get(f, ALL_FAMILIES[4]), s4);
    assert snaps == [s0, s1, s2, s3, s4];
    FiveFamilies(s0, s1, s2, s3, s4);
    FiveBlocks(s0, s1, s2, s3, s4);
  }

  lemma FiveBlocks(s0: seq<Pair>, s1: seq<Pair>, s2: seq<Pair>, s3: seq<Pair>, s4: seq<Pair>)
    ensures Text(FamilyLines(Requests, s0)) == Block("patchbay_requests_total", "Total requests received.", s0)
    ensures Text(FamilyLines(Tokens, s1)) == Block("patchbay_tokens_total", "Total tokens consumed.", s1)
    ensures Text(FamilyLines(UpstreamErrors, s2))
         == Block("patchbay_upstream_errors_total", "Upstream non-2xx or connection errors.", s2)
    ensures Text(FamilyLines(RateLimitRejections, s3))
         == Block("patchbay_rate_limit_rejections_total", "Requests rejected by rate limiter.", s3)
    ensures Text(FamilyLines(BudgetRejections, s4))
         == Block("patchbay_budget_rejections_total", "Requests rejected by token budget.", s4)
  {
    LongNames();
    RateLimitName();
    BudgetName();
    BlockOfFamily(Requests, s0);
    BlockOfFamily(Tokens, s1);
    BlockOfFamily(UpstreamErrors, s2);
    BlockOfFamily(RateLimitRejections, s3);
    BlockOfFamily(BudgetRejections, s4);
  }

  lemma HeaderText(help: string, ty: string)
    ensures Text([help, ty]) == help + "\n" + ty + "\n"
  {
    TextSnoc([], help);
    TextSnoc([help], ty);
    assert [] + [help] == [help] && [help] + [ty] == [help, ty];
  }
}
