/** Label strings (src/metrics.rs): escaping, formatting, and reading them back. */
module Labels {
  import opened Prelude

  /** `str::replace` of one character. */
  function Replace(s: string, c: char, sub: string): string {
    if s == "" then "" else (if s[0] == c then sub else [s[0]]) + Replace(s[1..], c, sub)
  }

  /** The three passes, in their order: backslash, double quote, newline. */
  function Escape(s: string): string {
    Replace(Replace(Replace(s, '\\', "\\\\"), '\"', "\\\""), '\n', "\\n")
  }

  function EscapeChar(c: char): string {
    if c == '\\' then "\\\\" else if c == '\"' then "\\\"" else if c == '\n' then "\\n" else [c]
  }

  /** Escaping character by character. */
  function EscapeEach(s: string): string {
    if s == "" then "" else EscapeChar(s[0]) + EscapeEach(s[1..])
  }

  lemma {:induction false} ReplaceConcat(s: string, t: string, c: char, sub: string)
    ensures Replace(s + t, c, sub) == Replace(s, c, sub) + Replace(t, c, sub)
  {
    if s == "" {
      assert s + t == t;
    } else {
      assert (s + t)[1..] == s[1..] + t;
      ReplaceConcat(s[1..], t, c, sub);
    }
  }

  lemma ReplaceShort(s: string, c: char, sub: string)
    requires 1 <= |s| <= 2
    ensures Replace(s, c, sub) == (if s[0] == c then sub else [s[0]])
                               + (if |s| == 1 then "" else if s[1] == c then sub else [s[1]])
  {
    if |s| == 2 {
      assert s[1..][1..] == "";
    }
  }

  lemma EscapeOne(c: char)
    ensures Escape([c]) == EscapeChar(c)
  {
    ReplaceShort([c], '\\', "\\\\");
    var a := Replace([c], '\\', "\\\\");
    ReplaceShort(a, '\"', "\\\"");
    var b := Replace(a, '\"', "\\\"");
    ReplaceShort(b, '\n', "\\n");
  }

  /** The three passes do not trip over each other: together they escape each character once. */
  lemma {:induction false} EscapeIsEach(s: string)
    ensures Escape(s) == EscapeEach(s)
  {
    if s != "" {
      var head, tail := [s[0]], s[1..];
      assert s == head + tail;
      EscapeOne(s[0]);
      EscapeIsEach(tail);
      ReplaceConcat(head, tail, '\\', "\\\\");
      ReplaceConcat(Replace(head, '\\', "\\\\"), Replace(tail, '\\', "\\\\"), '\"', "\\\"");
      ReplaceConcat(Replace(Replace(head, '\\', "\\\\"), '\"', "\\\""),
                    Replace(Replace(tail, '\\', "\\\\"), '\"', "\\\""), '\n', "\\n");
    }
  }

  // -------------------------------------------------------------------------
  // Reading label values back
  // -------------------------------------------------------------------------

  /** Reads a label value up to its closing quote; the value and what follows the quote. */
  function Unquote(t: string): Option<(string, string)> {
    if t == "" then None
    else if t[0] == '\"' then Some(("", t[1..]))
    else if t[0] == '\\' then
      if |t| < 2 then None
      else
        var rest := Unquote(t[2..]);
        var c := if t[1] == 'n' then '\n' else t[1];
        if rest.None? || !(t[1] == '\\' || t[1] == '\"' || t[1] == 'n') then None
        else Some(([c] + rest.value.0, rest.value.1))
    else
      var rest := Unquote(t[1..]);
      if rest.None? then None else Some(([t[0]] + rest.value.0, rest.value.1))
  }

  lemma UnquoteOne(c: char, u: string)
    requires Unquote(u).Some?
    ensures Unquote(EscapeChar(c) + u) == Some(([c] + Unquote(u).value.0, Unquote(u).value.1))
  {
    var t := EscapeChar(c) + u;
    if c == '\\' || c == '\"' || c == '\n' {
      assert t[2..] == u;
    } else {
      assert t[0] == c && t[1..] == u;
    }
  }

  /** Escaping is undone by reading, whatever follows. */
  lemma {:induction false} UnquoteEscaped(s: string, rest: string)
    ensures Unquote(EscapeEach(s) + "\"" + rest) == Some((s, rest))
  {
    if s == "" {
      assert "" + "\"" + rest == "\"" + rest;
    } else {
      UnquoteEscaped(s[1..], rest);
      var u := EscapeEach(s[1..]) + "\"" + rest;
      UnquoteOne(s[0], u);
      assert s == [s[0]] + s[1..];
      assert EscapeEach(s) + "\"" + rest == EscapeChar(s[0]) + u;
    }
  }

  /** No escaped value contains a raw newline. */
  lemma {:induction false} EscapedHasNoNewline(s: string)
    ensures '\n' !in EscapeEach(s)
  {
    if s != "" {
      EscapedHasNoNewline(s[1..]);
    }
  }

  // -------------------------------------------------------------------------
  // Label sets
  // -------------------------------------------------------------------------

  datatype Label = Label(name: string, value: string)

  function LabelText(l: Label): string {
    l.name + "=\"" + Escape(l.value) + "\""
  }

  function LabelsTail(ls: seq<Label>): string {
    if ls == [] then "}" else "," + LabelText(ls[0]) + LabelsTail(ls[1..])
  }

  /** A non-empty label set in the text format: `{a="x",b="y"}`. */
  function LabelSet(ls: seq<Label>): string
    requires ls != []
  {
    "{" + LabelText(ls[0]) + LabelsTail(ls[1..])
  }

  /** Splits `t` at its first `c`. */
  function SplitAt(t: string, c: char): Option<(string, string)> {
    if t == "" then None
    else if t[0] == c then Some(("", t[1..]))
    else
      var r := SplitAt(t[1..], c);
      if r.None? then None else Some(([t[0]] + r.value.0, r.value.1))
  }

  lemma {:induction false} SplitAtFirst(s: string, c: char, rest: string)
    requires c !in s
    ensures SplitAt(s + [c] + rest, c) == Some((s, rest))
  {
    var t := s + [c] + rest;
    if s == "" {
      assert t == [c] + rest;
    } else {
      SplitAtFirst(s[1..], c, rest);
      assert t[1..] == s[1..] + [c] + rest;
      assert s == [s[0]] + s[1..];
    }
  }

  lemma {:induction false} SplitAtLength(t: string, c: char)
    ensures SplitAt(t, c).Some? ==> |SplitAt(t, c).value.1| < |t|
  {
    if t != "" {
      SplitAtLength(t[1..], c);
    }
  }

  lemma {:induction false} UnquoteLength(t: string)
    ensures Unquote(t).Some? ==> |Unquote(t).value.1| < |t|
    decreases |t|
  {
    if t != "" {
      UnquoteLength(t[1..]);
      if |t| >= 2 {
        UnquoteLength(t[2..]);
      }
    }
  }

  /** Reads one `name="value"` and what follows it. */
  function ReadLabel(t: string): (r: Option<(Label, string)>)
    ensures r.Some? ==> |r.value.1| < |t|
  {
    SplitAtLength(t, '=');
    match SplitAt(t, '=')
    case None => None
    case Some((name, rest)) =>
      if rest == "" || rest[0] != '\"' then None
      else
        UnquoteLength(rest[1..]);
        match Unquote(rest[1..])
        case None => None
        case Some((value, after)) => Some((Label(name, value), after))
  }

  function ReadTail(t: string): Option<seq<Label>>
    decreases |t|
  {
    if t == "}" then Some([])
    else if t == "" || t[0] != ',' then None
    else
      match ReadLabel(t[1..])
      case None => None
      case Some((l, rest)) =>
        var ls := ReadTail(rest);
        if ls.None? then None else Some([l] + ls.value)
  }

  /** The reader of a label set. */
  function ReadSet(t: string): Option<seq<Label>> {
    if t == "" || t[0] != '{' then None
    else
      match ReadLabel(t[1..])
      case None => None
      case Some((l, rest)) =>
        var ls := ReadTail(rest);
        if ls.None? then None else Some([l] + ls.value)
  }

  predicate GoodNames(ls: seq<Label>) {
    forall l | l in ls :: '=' !in l.name && '\n' !in l.name
  }

  lemma ReadOneLabel(l: Label, rest: string)
    requires '=' !in l.name
    ensures ReadLabel(LabelText(l) + rest) == Some((l, rest))
  {
    EscapeIsEach(l.value);
    var quoted := EscapeEach(l.value) + "\"" + rest;
    assert LabelText(l) + rest == l.name + ['='] + ("\"" + quoted);
    SplitAtFirst(l.name, '=', "\"" + quoted);
    assert ("\"" + quoted)[1..] == quoted;
    UnquoteEscaped(l.value, rest);
  }

  lemma ReadTailStep(l: Label, rest: string)
    requires '=' !in l.name && ReadTail(rest).Some?
    ensures ReadTail("," + LabelText(l) + rest) == Some([l] + ReadTail(rest).value)
  {
    var t := "," + LabelText(l) + rest;
    ReadOneLabel(l, rest);
    assert t[1..] == LabelText(l) + rest;
    assert t[0] == ',';
  }

  lemma {:induction false} ReadLabelsTail(ls: seq<Label>)
    requires GoodNames(ls)
    ensures ReadTail(LabelsTail(ls)) == Some(ls)
  {
    if ls != [] {
      ReadLabelsTail(ls[1..]);
      ReadTailStep(ls[0], LabelsTail(ls[1..]));
      assert ls == [ls[0]] + ls[1..];
    }
  }

  /** DECODABLE. Reading a formatted label set gives back exactly its names and values. */
  lemma LabelSetRoundTrip(ls: seq<Label>)
    requires ls != [] && GoodNames(ls)
    ensures ReadSet(LabelSet(ls)) == Some(ls)
  {
    ReadOneLabel(ls[0], LabelsTail(ls[1..]));
    ReadLabelsTail(ls[1..]);
    assert LabelSet(ls)[1..] == LabelText(ls[0]) + LabelsTail(ls[1..]);
    assert ls == [ls[0]] + ls[1..];
  }

  lemma LabelTextNoNewline(l: Label)
    requires '\n' !in l.name
    ensures '\n' !in LabelText(l)
  {
    EscapeIsEach(l.value);
    EscapedHasNoNewline(l.value);
  }

  lemma {:induction false} LabelsTailNoNewline(ls: seq<Label>)
    requires GoodNames(ls)
    ensures '\n' !in LabelsTail(ls)
  {
    if ls != [] {
      LabelTextNoNewline(ls[0]);
      LabelsTailNoNewline(ls[1..]);
    }
  }

  /** A formatted label set is one line. */
  lemma LabelSetNoNewline(ls: seq<Label>)
    requires ls != [] && GoodNames(ls)
    ensures '\n' !in LabelSet(ls)
  {
    LabelTextNoNewline(ls[0]);
    LabelsTailNoNewline(ls[1..]);
  }

  // -------------------------------------------------------------------------
  // The four label sets that are in use
  // -------------------------------------------------------------------------

  function KindName(kind: Kind): string {
    match kind
    case Prompt => "prompt"
    case Completion => "completion"
    case Total => "total"
  }

  /** `{backend="..",model="..",status=".."}` */
  function RequestLabel(backend: string, model: string, status: string): string {
    "{" + LabelText(Label("backend", backend)) + "," + LabelText(Label("model", model))
    + "," + LabelText(Label("status", status)) + "}"
  }

  /** `{key="..",kind=".."}`; the kind is a fixed word and is not escaped. */
  function TokenLabel(key: string, kind: Kind): string {
    "{" + LabelText(Label("key", key)) + ",kind=\"" + KindName(kind) + "\"}"
  }

  function BackendLabel(backend: string): string {
    "{" + LabelText(Label("backend", backend)) + "}"
  }

  function KeyLabel(key: string): string {
    "{" + LabelText(Label("key", key)) + "}"
  }

  lemma LabelsTailOne(l: Label)
    ensures LabelsTail([l]) == "," + LabelText(l) + "}"
  {
    assert [l][1..] == [];
  }

  lemma LabelsTailTwo(l1: Label, l2: Label)
    ensures LabelsTail([l1, l2]) == "," + LabelText(l1) + "," + LabelText(l2) + "}"
  {
    assert [l1, l2][1..] == [l2];
    LabelsTailOne(l2);
  }

  lemma KindNameIsPlain(kind: Kind)
    ensures Escape(KindName(kind)) == KindName(kind)
  {
    EscapeIsEach(KindName(kind));
    PlainEscape(KindName(kind));
  }

  lemma {:induction false} PlainEscape(s: string)
    requires forall c | c in s :: EscapeChar(c) == [c]
    ensures EscapeEach(s) == s
  {
    if s != "" {
      PlainEscape(s[1..]);
    }
  }

  function RequestLabels(backend: string, model: string, status: string): seq<Label> {
    [Label("backend", backend), Label("model", model), Label("status", status)]
  }

  lemma RequestNamesAreGood(backend: string, model: string, status: string)
    ensures GoodNames(RequestLabels(backend, model, status))
  {
  }

  lemma RequestLabelIsSet(backend: string, model: string, status: string)
    ensures RequestLabel(backend, model, status) == LabelSet(RequestLabels(backend, model, status))
  {
    var l1, l2, l3 := Label("backend", backend), Label("model", model), Label("status", status);
    assert [l1, l2, l3][1..] == [l2, l3];
    LabelsTailTwo(l2, l3);
    var (a, b, c) := ("{" + LabelText(l1), "," + LabelText(l2), "," + LabelText(l3));
    Associate(a, b, c);
    Associate(a, b + c, "}");
  }

  lemma KindLabelText(kind: Kind)
    ensures LabelText(Label("kind", KindName(kind))) == "kind=\"" + KindName(kind) + "\""
  {
    KindNameIsPlain(kind);
    assert "kind" + "=\"" == "kind=\"";
  }

  lemma TokenLabelIsSet(key: string, kind: Kind)
    ensures TokenLabel(key, kind) == LabelSet([Label("key", key), Label("kind", KindName(kind))])
  {
    var l1, l2 := Label("key", key), Label("kind", KindName(kind));
    KindLabelText(kind);
    assert [l1, l2][1..] == [l2];
    LabelsTailOne(l2);
    assert ",kind=\"" == "," + "kind=\"" && "\"}" == "\"" + "}";
    assert TokenLabel(key, kind) == "{" + LabelText(l1) + ("," + LabelText(l2) + "}");
  }

  lemma BackendLabelIsSet(backend: string)
    ensures BackendLabel(backend) == LabelSet([Label("backend", backend)])
  {
    assert [Label("backend", backend)][1..] == [];
  }

  lemma KeyLabelIsSet(key: string)
    ensures KeyLabel(key) == LabelSet([Label("key", key)])
  {
    assert [Label("key", key)][1..] == [];
  }

  lemma LabelSetInjective(ls1: seq<Label>, ls2: seq<Label>)
    requires ls1 != [] && ls2 != [] && GoodNames(ls1) && GoodNames(ls2)
    requires LabelSet(ls1) == LabelSet(ls2)
    ensures ls1 == ls2
  {
    LabelSetRoundTrip(ls1);
    LabelSetRoundTrip(ls2);
  }

  /** Different (backend, model, status) triples never share a counter. */
  lemma RequestLabelInjective(b1: string, m1: string, s1: string, b2: string, m2: string, s2: string)
    requires RequestLabel(b1, m1, s1) == RequestLabel(b2, m2, s2)
    ensures b1 == b2 && m1 == m2 && s1 == s2
  {
    assert RequestLabels(b1, m1, s1) == RequestLabels(b2, m2, s2) by {
      RequestLabelIsSet(b1, m1, s1);
      RequestLabelIsSet(b2, m2, s2);
      RequestNamesAreGood(b1, m1, s1);
      RequestNamesAreGood(b2, m2, s2);
      LabelSetInjective(RequestLabels(b1, m1, s1), RequestLabels(b2, m2, s2));
    }
    SameRequestLabels(b1, m1, s1, b2, m2, s2);
  }

  lemma SameRequestLabels(b1: string, m1: string, s1: string, b2: string, m2: string, s2: string)
    requires RequestLabels(b1, m1, s1) == RequestLabels(b2, m2, s2)
    ensures b1 == b2 && m1 == m2 && s1 == s2
  {
    var ls1, ls2 := RequestLabels(b1, m1, s1), RequestLabels(b2, m2, s2);
    assert ls1[0] == ls2[0] && ls1[1] == ls2[1] && ls1[2] == ls2[2];
  }

  lemma KindNameInjective(k1: Kind, k2: Kind)
    requires KindName(k1) == KindName(k2)
    ensures k1 == k2
  {
    assert |KindName(Prompt)| == 6 && |KindName(Completion)| == 10 && |KindName(Kind.Total)| == 5;
  }

  /** Different (key, kind) pairs never share a counter. */
  lemma TokenLabelInjective(key1: string, kind1: Kind, key2: string, kind2: Kind)
    requires TokenLabel(key1, kind1) == TokenLabel(key2, kind2)
    ensures key1 == key2 && kind1 == kind2
  {
    TokenLabelIsSet(key1, kind1);
    TokenLabelIsSet(key2, kind2);
    var ls1 := [Label("key", key1), Label("kind", KindName(kind1))];
    var ls2 := [Label("key", key2), Label("kind", KindName(kind2))];
    LabelSetRoundTrip(ls1);
    LabelSetRoundTrip(ls2);
    assert ls1[0] == ls2[0] && ls1[1] == ls2[1];
    KindNameInjective(kind1, kind2);
  }

  lemma OneLabelInjective(v1: string, v2: string)
    requires BackendLabel(v1) == BackendLabel(v2) || KeyLabel(v1) == KeyLabel(v2)
    ensures v1 == v2
  {
    if BackendLabel(v1) == BackendLabel(v2) {
      BackendLabelIsSet(v1);
      BackendLabelIsSet(v2);
      LabelSetRoundTrip([Label("backend", v1)]);
      LabelSetRoundTrip([Label("backend", v2)]);
      assert [Label("backend", v1)][0] == [Label("backend", v2)][0];
    }
    if KeyLabel(v1) == KeyLabel(v2) {
      KeyLabelIsSet(v1);
      KeyLabelIsSet(v2);
      LabelSetRoundTrip([Label("key", v1)]);
      LabelSetRoundTrip([Label("key", v2)]);
      assert [Label("key", v1)][0] == [Label("key", v2)][0];
    }
  }

  lemma {:induction false} EachConcat(s: string, t: string)
    ensures EscapeEach(s + t) == EscapeEach(s) + EscapeEach(t)
  {
    if s == "" {
      assert s + t == t;
    } else {
      assert (s + t)[1..] == s[1..] + t;
      EachConcat(s[1..], t);
    }
  }

  /** Escaping, character by character: a backslash, a double quote and a newline become two
      characters each, every other character stays. */
  lemma EscapeExactly(s: string, c: char)
    ensures Escape(s + [c])
         == Escape(s) + (if c == '\\' then "\\\\" else if c == '"' then "\\\"" else if c == '\n' then "\\n" else [c])
  {
    EscapeIsEach(s + [c]);
    EscapeIsEach(s);
    EachConcat(s, [c]);
    assert [c][1..] == "";
  }
}
