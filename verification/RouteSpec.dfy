/** Route patterns and what they mean: templates of literal characters and parameters, their compilation to a
    regular expression, and the greedy backtracking matcher the regex crate is taken to be. */
module RouteSpec {
  import opened Coap

  // ---------------------------------------------------------------- slashes

  function TrimLeft(s: string): string {
    if s != [] && s[0] == '/' then TrimLeft(s[1..]) else s
  }

  function TrimRight(s: string): string {
    if s != [] && s[|s| - 1] == '/' then TrimRight(s[..|s| - 1]) else s
  }

  // `trim_matches('/')`
  function TrimSlashes(s: string): string {
    TrimRight(TrimLeft(s))
  }

  predicate AllSlashes(s: string) {
    forall i | 0 <= i < |s| :: s[i] == '/'
  }

  // Nothing to trim.
  predicate Trimmed(s: string) {
    s == [] || (s[0] != '/' && s[|s| - 1] != '/')
  }

  lemma {:induction false} TrimLeftSplits(s: string) returns (left: string)
    ensures s == left + TrimLeft(s) && AllSlashes(left)
    ensures TrimLeft(s) != [] ==> TrimLeft(s)[0] != '/'
  {
    left := [];
    if s != [] && s[0] == '/' {
      var rest := TrimLeftSplits(s[1..]);
      left := ['/'] + rest;
      assert s == [s[0]] + s[1..];
      Associate(['/'], rest, TrimLeft(s));
    }
  }

  lemma {:induction false} TrimRightSplits(s: string) returns (right: string)
    ensures s == TrimRight(s) + right && AllSlashes(right)
    ensures TrimRight(s) != [] ==> TrimRight(s)[|TrimRight(s)| - 1] != '/'
  {
    right := [];
    if s != [] && s[|s| - 1] == '/' {
      var rest := TrimRightSplits(s[..|s| - 1]);
      right := rest + ['/'];
      assert s == s[..|s| - 1] + [s[|s| - 1]];
      Associate(TrimRight(s), rest, ['/']);
    }
  }

  /** Trimming takes the slashes at both ends and nothing else: what is left is empty, or begins and ends with another
      character. */
  lemma TrimSplits(s: string) returns (left: string, right: string)
    ensures s == left + TrimSlashes(s) + right
    ensures AllSlashes(left) && AllSlashes(right) && Trimmed(TrimSlashes(s))
  {
    left := TrimLeftSplits(s);
    right := TrimRightSplits(TrimLeft(s));
    Associate(left, TrimSlashes(s), right);
    if TrimSlashes(s) != [] {
      assert TrimSlashes(s)[0] == TrimLeft(s)[0];
    }
  }

  lemma {:induction false} TrimLeftOf(left: string, s: string)
    requires AllSlashes(left) && (s != [] ==> s[0] != '/')
    ensures TrimLeft(left + s) == s
  {
    if left == [] {
      assert left + s == s;
    } else {
      assert (left + s)[1..] == left[1..] + s;
      TrimLeftOf(left[1..], s);
    }
  }

  lemma {:induction false} TrimRightOf(s: string, right: string)
    requires AllSlashes(right) && (s != [] ==> s[|s| - 1] != '/')
    ensures TrimRight(s + right) == s
  {
    if right == [] {
      assert s + right == s;
    } else {
      assert (s + right)[..|s + right| - 1] == s + right[..|right| - 1];
      TrimRightOf(s, right[..|right| - 1]);
    }
  }

  lemma {:induction false} OnlySlashes(s: string)
    requires AllSlashes(s)
    ensures TrimLeft(s) == []
  {
    if s != [] {
      OnlySlashes(s[1..]);
    }
  }

  /** And it is the only way to split a text so. */
  lemma TrimIsUnique(left: string, middle: string, right: string)
    requires AllSlashes(left) && AllSlashes(right) && Trimmed(middle)
    ensures TrimSlashes(left + middle + right) == middle
  {
    if middle == [] {
      assert left + middle + right == left + right;
      OnlySlashes(left + right);
    } else {
      Associate(left, middle, right);
      TrimLeftOf(left, middle + right);
      TrimRightOf(middle, right);
    }
  }

  /** Slashes added at the ends make no difference. */
  lemma OuterSlashesAreTrimmed(left: string, s: string, right: string)
    requires AllSlashes(left) && AllSlashes(right)
    ensures TrimSlashes(left + s + right) == TrimSlashes(s)
  {
    var l, r := TrimSplits(s);
    var middle := TrimSlashes(s);
    TrimIsUnique(left + l, middle, r + right);
    assert left + s + right == left + l + middle + (r + right);
  }

  // `split('/')`
  function Split(s: string): (r: seq<string>)
    ensures r != []
  {
    if s == [] then [[]]
    else
      var rest := Split(s[1..]);
      if s[0] == '/' then [[]] + rest else [[s[0]] + rest[0]] + rest[1..]
  }

  function Join(segments: seq<string>): string
    requires segments != []
  {
    if |segments| == 1 then segments[0] else Join(segments[..|segments| - 1]) + "/" + segments[|segments| - 1]
  }

  lemma {:induction false} JoinFromFront(segments: seq<string>)
    requires |segments| > 1
    ensures Join(segments) == segments[0] + "/" + Join(segments[1..])
  {
    var front, last := segments[..|segments| - 1], segments[|segments| - 1];
    if |front| > 1 {
      JoinFromFront(front);
      assert segments[1..][..|segments[1..]| - 1] == front[1..];
      Associate(front[0] + "/", Join(front[1..]), "/");
      Associate(front[0] + "/", Join(front[1..]) + "/", last);
    } else {
      assert segments[1..] == [last] && front == [segments[0]];
    }
  }

  lemma JoinPrepends(c: char, segments: seq<string>)
    requires segments != []
    ensures Join([[c] + segments[0]] + segments[1..]) == [c] + Join(segments)
  {
    var longer := [[c] + segments[0]] + segments[1..];
    if |segments| > 1 {
      JoinFromFront(segments);
      JoinFromFront(longer);
      assert longer[1..] == segments[1..];
      Associate([c], segments[0], "/");
      Associate([c], segments[0] + "/", Join(segments[1..]));
    }
  }

  /** Joining undoes splitting. */
  lemma {:induction false} JoinSplit(s: string)
    ensures Join(Split(s)) == s
    ensures forall i | 0 <= i < |Split(s)| :: '/' !in Split(s)[i]
  {
    if s != [] {
      JoinSplit(s[1..]);
      var rest := Split(s[1..]);
      if s[0] == '/' {
        JoinFromFront([[]] + rest);
        assert ([[]] + rest)[1..] == rest;
        assert [] + "/" + s[1..] == s;
      } else {
        JoinPrepends(s[0], rest);
        assert Split(s)[1..] == rest[1..];
      }
    }
  }

  // ---------------------------------------------------------------- templates

  datatype Part = Literal(c: char) | Parameter(name: string)

  type Template = seq<Part>

  function PrintPart(p: Part): string {
    match p
    case Literal(c) => [c]
    case Parameter(name) => "{" + name + "}"
  }

  // The template as it is written in a route.
  function Print(t: Template): string {
    if t == [] then [] else Print(t[..|t| - 1]) + PrintPart(t[|t| - 1])
  }

  function Names(t: Template): seq<string> {
    if t == [] then []
    else Names(t[..|t| - 1]) + (if t[|t| - 1].Parameter? then [t[|t| - 1].name] else [])
  }

  predicate PlainPart(p: Part) {
    match p
    case Literal(c) => c != '{' && c != '}'
    case Parameter(name) => '{' !in name && '}' !in name && '/' !in name
  }

  // A template that reads unambiguously.
  predicate Plain(t: Template) {
    forall i | 0 <= i < |t| :: PlainPart(t[i])
  }

  function Literals(s: string): (t: Template)
    ensures |t| == |s| && forall i | 0 <= i < |s| :: t[i] == Literal(s[i])
  {
    seq(|s|, i requires 0 <= i < |s| => Literal(s[i]))
  }

  lemma {:induction false} PrintAppends(t: Template, u: Template)
    ensures Print(t + u) == Print(t) + Print(u)
    ensures Names(t + u) == Names(t) + Names(u)
    decreases |u|
  {
    if u == [] {
      assert t + u == t;
    } else {
      var front, last := u[..|u| - 1], u[|u| - 1];
      PrintAppends(t, front);
      assert (t + u)[..|t + u| - 1] == t + front && (t + u)[|t + u| - 1] == last;
      Associate(Print(t), Print(front), PrintPart(last));
    }
  }

  lemma PrintOne(p: Part)
    ensures Print([p]) == PrintPart(p) && Names([p]) == if p.Parameter? then [p.name] else []
  {
    assert [p][..0] == [];
  }

  lemma {:induction false} PrintLiterals(s: string)
    ensures Print(Literals(s)) == s && Names(Literals(s)) == []
  {
    if s != [] {
      PrintLiterals(s[..|s| - 1]);
      assert Literals(s)[..|s| - 1] == Literals(s[..|s| - 1]);
    }
  }

  lemma PrintFromFront(t: Template)
    requires t != []
    ensures Print(t) == PrintPart(t[0]) + Print(t[1..])
    ensures Names(t) == (if t[0].Parameter? then [t[0].name] else []) + Names(t[1..])
  {
    PrintAppends([t[0]], t[1..]);
    PrintOne(t[0]);
    assert [t[0]] + t[1..] == t;
  }

  // What a brace-free name is followed by.
  lemma NameEnds(name: string, a: string, other: string, b: string)
    requires '}' !in name && '}' !in other && name + "}" + a == other + "}" + b
    ensures name == other && a == b
  {
    var s := name + "}" + a;
    assert s[|name|] == '}' && s[|other|] == '}';
    assert name == s[..|name|] && a == s[|name| + 1..];
  }

  lemma ParametersEqual(name: string, a: string, other: string, b: string)
    requires '}' !in name && '}' !in other
    requires PrintPart(Parameter(name)) + a == PrintPart(Parameter(other)) + b
    ensures name == other && a == b
  {
    Associate("{", name + "}", a);
    Associate("{", other + "}", b);
    AfterFirst('{', name + "}" + a);
    AfterFirst('{', other + "}" + b);
    Associate("{", name, "}");
    Associate("{", other, "}");
    NameEnds(name, a, other, b);
  }

  lemma Associate(a: string, b: string, c: string)
    ensures (a + b) + c == a + (b + c)
  {
  }

  lemma AfterFirst(c: char, s: string)
    ensures ([c] + s)[0] == c && ([c] + s)[1..] == s
  {
  }

  lemma FirstPrinted(p: Part, a: string)
    ensures PrintPart(p) + a != [] && (PrintPart(p) + a)[0] == if p.Literal? then p.c else '{'
  {
  }

  lemma PartsEqual(p: Part, a: string, q: Part, b: string)
    requires PlainPart(p) && PlainPart(q) && PrintPart(p) + a == PrintPart(q) + b
    ensures p == q && a == b
  {
    hide PrintPart;
    FirstPrinted(p, a);
    FirstPrinted(q, b);
    match (p, q)
    case (Parameter(name), Parameter(other)) =>
      ParametersEqual(name, a, other, b);
    case (Literal(c), Literal(d)) =>
      LiteralThen(c, a);
      LiteralThen(d, b);
    case _ =>
  }

  lemma LiteralThen(c: char, a: string)
    ensures (PrintPart(Literal(c)) + a)[1..] == a
  {
  }

  lemma PlainTail(t: Template)
    requires Plain(t) && t != []
    ensures PlainPart(t[0]) && Plain(t[1..]) && t == [t[0]] + t[1..]
  {
  }

  lemma PrintsSomething(t: Template)
    requires t != []
    ensures Print(t) != []
  {
    PrintFromFront(t);
    FirstPrinted(t[0], Print(t[1..]));
  }

  /** Printing loses nothing: a plain template can be read back in only one way. */
  lemma {:induction false} PrintIsInjective(t: Template, u: Template)
    requires Plain(t) && Plain(u) && Print(t) == Print(u)
    ensures t == u
    decreases |t|
  {
    hide PrintPart, PlainPart, Plain;
    if t == [] {
      if u != [] {
        PrintsSomething(u);
        assert false;
      }
    } else if u == [] {
      PrintsSomething(t);
      assert false;
    } else {
      hide Print, Names;
      PrintFromFront(t);
      PrintFromFront(u);
      PlainTail(t);
      PlainTail(u);
      PartsEqual(t[0], Print(t[1..]), u[0], Print(u[1..]));
      PrintIsInjective(t[1..], u[1..]);
    }
  }

  // ---------------------------------------------------------------- braces, counted

  // Opening minus closing braces.
  function Depth(s: string): int {
    if s == [] then 0
    else Depth(s[..|s| - 1]) + match s[|s| - 1] case '{' => 1 case '}' => -1 case _ => 0
  }

  // Up to position n, parameters are opened one at a time and closed only when open.
  predicate Balanced(s: string, n: nat)
    requires n <= |s|
  {
    forall i | 0 <= i <= n :: 0 <= Depth(s[..i]) <= 1
  }

  datatype Fault = NestedParameter | UnmatchedClosingBrace | UnclosedParameter

  ghost predicate HasFault(s: string, fault: Fault) {
    match fault
    case NestedParameter => exists n :: 0 <= n < |s| && Balanced(s, n) && Depth(s[..n + 1]) == 2
    case UnmatchedClosingBrace => exists n :: 0 <= n < |s| && Balanced(s, n) && Depth(s[..n + 1]) == -1
    case UnclosedParameter => Balanced(s, |s|) && Depth(s) == 1
  }

  predicate WellBraced(s: string) {
    Balanced(s, |s|) && Depth(s) == 0
  }

  /** A segment is either well braced or has a fault, and only one kind of fault. */
  lemma OneFault(s: string, fault: Fault, other: Fault)
    requires HasFault(s, fault)
    ensures !WellBraced(s) && (HasFault(s, other) ==> other == fault)
  {
    assert s[..|s|] == s;
    if fault != UnclosedParameter {
      var n :| 0 <= n < |s| && Balanced(s, n) && (Depth(s[..n + 1]) == 2 || Depth(s[..n + 1]) == -1);
      if HasFault(s, other) && other != UnclosedParameter {
        var m :| 0 <= m < |s| && Balanced(s, m) && Depth(s[..m + 1]) == (if other == NestedParameter then 2 else -1);
        assert m == n;
      }
    }
  }

  // ---------------------------------------------------------------- regular expressions

  // An item of an anchored pattern: an escaped character, or the group `([^/]+)`.
  datatype Item = Char(c: char) | Group

  type Regex = seq<Item>

  // What a template compiles to.
  function Compile(t: Template): (r: Regex)
    ensures |r| == |t|
  {
    seq(|t|, i requires 0 <= i < |t| => match t[i] case Literal(c) => Char(c) case Parameter(_) => Group)
  }

  // The length of the longest slash-free prefix.
  function SegmentLength(s: string): (n: nat)
    ensures n <= |s| && '/' !in s[..n] && (n < |s| ==> s[n] == '/')
  {
    if s == [] || s[0] == '/' then 0 else 1 + SegmentLength(s[1..])
  }

  /** The anchored match of a regex, with its captures: groups take as much as they can and give back one
      character at a time. */
  function Captures(r: Regex, s: string): (captures: Option<seq<string>>)
    decreases |r|, |s| + 1
  {
    if r == [] then (if s == [] then Some([]) else None)
    else
      match r[0]
      case Char(c) => if s != [] && s[0] == c then Captures(r[1..], s[1..]) else None
      case Group => TryGroup(r, s, SegmentLength(s))
  }

  function TryGroup(r: Regex, s: string, n: nat): (captures: Option<seq<string>>)
    requires r != [] && n <= |s|
    decreases |r|, n
  {
    if n == 0 then None
    else
      match Captures(r[1..], s[n..])
      case Some(rest) => Some([s[..n]] + rest)
      case None => TryGroup(r, s, n - 1)
  }

  // ---------------------------------------------------------------- what a template means

  predicate IsValue(v: string) {
    v != [] && '/' !in v
  }

  function ParameterCount(t: Template): nat {
    if t == [] then 0 else (if t[0].Parameter? then 1 else 0) + ParameterCount(t[1..])
  }

  // The template with values put in for its parameters.
  function Fill(t: Template, values: seq<string>): string
    requires |values| == ParameterCount(t)
  {
    if t == [] then []
    else
      match t[0]
      case Literal(c) => [c] + Fill(t[1..], values)
      case Parameter(_) => values[0] + Fill(t[1..], values[1..])
  }

  /** The meaning of a pattern: the path is its literals with a non-empty slash-free value for each parameter. */
  predicate Fits(t: Template, values: seq<string>, s: string) {
    && |values| == ParameterCount(t)
    && (forall i | 0 <= i < |values| :: IsValue(values[i]))
    && Fill(t, values) == s
  }

  // At the first value in which they differ, `a` is the longer one.
  ghost predicate Greedier(a: seq<string>, b: seq<string>) {
    a == b || exists i :: 0 <= i < |a| && i < |b| && a[..i] == b[..i] && |a[i]| > |b[i]|
  }

  lemma CompileTail(t: Template)
    requires t != []
    ensures Compile(t)[1..] == Compile(t[1..])
  {
  }

  // ---------------------------------------------------------------- sound, complete, greedy

  /** Every match is a decomposition of the path. */
  lemma {:induction false} CapturesFit(t: Template, s: string)
    requires Captures(Compile(t), s).Some?
    ensures Fits(t, Captures(Compile(t), s).value, s)
    decreases |t|, |s| + 1
  {
    if t != [] {
      CompileTail(t);
      match t[0]
      case Literal(c) =>
        CapturesFit(t[1..], s[1..]);
        assert [c] + s[1..] == s;
      case Parameter(_) =>
        GroupFits(t, s, SegmentLength(s));
    }
  }

  lemma {:induction false} GroupFits(t: Template, s: string, n: nat)
    requires t != [] && t[0].Parameter? && n <= SegmentLength(s)
    requires TryGroup(Compile(t), s, n).Some?
    ensures Fits(t, TryGroup(Compile(t), s, n).value, s)
    decreases |t|, n
  {
    CompileTail(t);
    if Captures(Compile(t[1..]), s[n..]).Some? {
      CapturesFit(t[1..], s[n..]);
      var rest := Captures(Compile(t[1..]), s[n..]).value;
      var values := [s[..n]] + rest;
      assert values[1..] == rest;
      assert s[..n] + s[n..] == s;
      assert '/' !in s[..n] by {
        assert s[..n] == s[..SegmentLength(s)][..n];
      }
      assert IsValue(values[0]);
    } else {
      GroupFits(t, s, n - 1);
    }
  }

  lemma SlashFreePrefix(v: string, rest: string)
    requires '/' !in v
    ensures SegmentLength(v + rest) == |v| + SegmentLength(rest)
  {
    if v == [] {
      assert v + rest == rest;
    } else {
      assert (v + rest)[1..] == v[1..] + rest;
      SlashFreePrefix(v[1..], rest);
    }
  }

  lemma GreedierTail(x: string, a: seq<string>, b: seq<string>)
    requires Greedier(a, b)
    ensures Greedier([x] + a, [x] + b)
  {
    if a != b {
      var i :| 0 <= i < |a| && i < |b| && a[..i] == b[..i] && |a[i]| > |b[i]|;
      var xa, xb := [x] + a, [x] + b;
      assert xa[..i + 1] == [x] + a[..i] && xb[..i + 1] == [x] + b[..i];
      assert xa[i + 1] == a[i] && xb[i + 1] == b[i];
    }
  }

  /** A path that has a decomposition matches, and of all its decompositions the match is the one whose values
      are longest from the left. */
  lemma {:induction false} FittingIsCaptured(t: Template, values: seq<string>, s: string)
    requires Fits(t, values, s)
    ensures Captures(Compile(t), s).Some? && Greedier(Captures(Compile(t), s).value, values)
    decreases |t|, |s| + 1
  {
    if t != [] {
      CompileTail(t);
      match t[0]
      case Literal(c) =>
        assert s[1..] == Fill(t[1..], values);
        FittingIsCaptured(t[1..], values, s[1..]);
      case Parameter(_) =>
        SlashFreePrefix(values[0], Fill(t[1..], values[1..]));
        assert IsValue(values[0]);
        FittingGroup(t, values, s, SegmentLength(s));
    }
  }

  lemma {:induction false} FittingGroup(t: Template, values: seq<string>, s: string, n: nat)
    requires t != [] && t[0].Parameter? && Fits(t, values, s) && |values[0]| <= n <= SegmentLength(s)
    ensures TryGroup(Compile(t), s, n).Some? && Greedier(TryGroup(Compile(t), s, n).value, values)
    decreases |t|, n
  {
    CompileTail(t);
    assert IsValue(values[0]);
    var r := TryGroup(Compile(t), s, n);
    if n == |values[0]| {
      assert s[..n] == values[0] && s[n..] == Fill(t[1..], values[1..]);
      FittingIsCaptured(t[1..], values[1..], s[n..]);
      GreedierTail(values[0], Captures(Compile(t[1..]), s[n..]).value, values[1..]);
      assert [values[0]] + values[1..] == values;
    } else if Captures(Compile(t[1..]), s[n..]).Some? {
      assert r.value[..0] == values[..0];
      assert |r.value[0]| > |values[0]|;
    } else {
      FittingGroup(t, values, s, n - 1);
    }
  }

  // ---------------------------------------------------------------- one parameter per segment

  // No parameter before the next slash.
  predicate NoneBeforeSlash(t: Template) {
    t == [] || t[0] == Literal('/') || (t[0].Literal? && NoneBeforeSlash(t[1..]))
  }

  /** No segment holds two parameters. */
  predicate OnePerSegment(t: Template) {
    t == [] || ((t[0].Parameter? ==> NoneBeforeSlash(t[1..])) && OnePerSegment(t[1..]))
  }

  // The number of characters before the next slash.
  function LiteralRun(t: Template): nat
    requires NoneBeforeSlash(t)
  {
    if t == [] || t[0] == Literal('/') then 0 else 1 + LiteralRun(t[1..])
  }

  lemma {:induction false} RunOfFill(t: Template, values: seq<string>)
    requires NoneBeforeSlash(t) && |values| == ParameterCount(t)
    ensures SegmentLength(Fill(t, values)) == LiteralRun(t)
  {
    if t != [] && t[0] != Literal('/') {
      RunOfFill(t[1..], values);
      assert Fill(t, values)[1..] == Fill(t[1..], values);
    }
  }

  /** When no segment holds two parameters, a path has at most one decomposition. */
  lemma {:induction false} DecompositionIsUnique(t: Template, a: seq<string>, b: seq<string>, s: string)
    requires OnePerSegment(t) && Fits(t, a, s) && Fits(t, b, s)
    ensures a == b
  {
    if t != [] {
      match t[0]
      case Literal(c) =>
        assert s[1..] == Fill(t[1..], a) == Fill(t[1..], b);
        DecompositionIsUnique(t[1..], a, b, s[1..]);
      case Parameter(_) =>
        var restA, restB := Fill(t[1..], a[1..]), Fill(t[1..], b[1..]);
        assert IsValue(a[0]) && IsValue(b[0]);
        SlashFreePrefix(a[0], restA);
        SlashFreePrefix(b[0], restB);
        RunOfFill(t[1..], a[1..]);
        RunOfFill(t[1..], b[1..]);
        assert a[0] == s[..|a[0]|] && b[0] == s[..|b[0]|];
        assert restA == s[|a[0]|..] && restB == s[|b[0]|..];
        DecompositionIsUnique(t[1..], a[1..], b[1..], restA);
        assert a == [a[0]] + a[1..] && b == [b[0]] + b[1..];
    }
  }

  const TWO_PARAMETERS: Template := [Parameter("a"), Parameter("b")]

  lemma TwoParameters()
    ensures ParameterCount(TWO_PARAMETERS) == 2 && ParameterCount(TWO_PARAMETERS[1..]) == 1
    ensures TWO_PARAMETERS[0] == Parameter("a") && TWO_PARAMETERS[1..] == [Parameter("b")]
        && TWO_PARAMETERS[1..][1..] == []
  {
    var one: Template := [Parameter("b")];
    assert one[1..] == [];
    assert ParameterCount([]) == 0;
    assert ParameterCount(one) == 1;
    assert TWO_PARAMETERS[1..] == one;
  }

  // What two values make of it.
  lemma FillTwo(x: string, y: string)
    ensures ParameterCount(TWO_PARAMETERS) == 2 && Fill(TWO_PARAMETERS, [x, y]) == x + y
  {
    TwoParameters();
    var one := TWO_PARAMETERS[1..];
    assert [x, y][1..] == [y] && [y][1..] == [];
    assert Fill([], []) == [];
    assert Fill(one, [y]) == y + [] == y;
  }

  lemma FitsTwo(x: string, y: string)
    requires IsValue(x) && IsValue(y)
    ensures Fits(TWO_PARAMETERS, [x, y], x + y)
  {
    TwoParameters();
    FillTwo(x, y);
  }

  /** With two parameters in a segment it need not be unique: `{a}{b}` splits "xyz" in two ways, and the match
      is the one with the longer first value. */
  lemma TwoPerSegmentAreAmbiguous()
    ensures var t := TWO_PARAMETERS;
      && !OnePerSegment(t) && Fits(t, ["x", "yz"], "xyz") && Fits(t, ["xy", "z"], "xyz")
      && Captures(Compile(t), "xyz") == Some(["xy", "z"])
  {
    hide Fits, Captures, Greedier, Compile;
    TwoParameters();
    FitsTwo("x", "yz");
    FitsTwo("xy", "z");
    assert "x" + "yz" == "xyz" && "xy" + "z" == "xyz";
    FittingIsCaptured(TWO_PARAMETERS, ["xy", "z"], "xyz");
    CapturesFit(TWO_PARAMETERS, "xyz");
    TwoValues(Captures(Compile(TWO_PARAMETERS), "xyz").value);
  }

  lemma TwoValues(c: seq<string>)
    requires Fits(TWO_PARAMETERS, c, "xyz") && Greedier(c, ["xy", "z"])
    ensures c == ["xy", "z"]
  {
    TwoParameters();
    assert c == [c[0], c[1]];
    FillTwo(c[0], c[1]);
    assert IsValue(c[0]) && IsValue(c[1]);
    LongestPair(c[0], c[1]);
  }

  lemma LongestPair(x: string, y: string)
    requires x + y == "xyz" && y != [] && Greedier([x, y], ["xy", "z"])
    ensures [x, y] == ["xy", "z"]
  {
    var xs, zs := [x, y], ["xy", "z"];
    assert |x| + |y| == 3;
    assert |zs[0]| == 2 && |zs[1]| == 1 && |xs[0]| == |x| && |xs[1]| == |y|;
    assert xs[..1] == [x] && zs[..1] == ["xy"];
    assert |x| == 2;
    assert x == "xyz"[..2] && y == "xyz"[2..];
  }

  // ---------------------------------------------------------------- an example

  lemma {:induction false} LiteralsInFront(text: string, t: Template, values: seq<string>)
    requires |values| == ParameterCount(t)
    ensures ParameterCount(Literals(text) + t) == ParameterCount(t)
    ensures Fill(Literals(text) + t, values) == text + Fill(t, values)
  {
    var all := Literals(text) + t;
    if text == [] {
      assert all == t;
    } else {
      assert all[1..] == Literals(text[1..]) + t;
      LiteralsInFront(text[1..], t, values);
      Associate([text[0]], text[1..], Fill(t, values));
      assert [text[0]] + text[1..] == text;
    }
  }

  lemma ParameterInFront(name: string, t: Template, value: string, values: seq<string>)
    requires |values| == ParameterCount(t)
    ensures ParameterCount([Parameter(name)] + t) == ParameterCount(t) + 1
    ensures Fill([Parameter(name)] + t, [value] + values) == value + Fill(t, values)
  {
    var all := [Parameter(name)] + t;
    assert all[1..] == t && ([value] + values)[1..] == values;
  }

  lemma PrintThree(a: string, name: string, t: Template)
    ensures Print(Literals(a) + ([Parameter(name)] + t)) == a + ("{" + name + "}" + Print(t))
    ensures Names(Literals(a) + ([Parameter(name)] + t)) == [name] + Names(t)
  {
    PrintAppends(Literals(a), [Parameter(name)] + t);
    PrintAppends([Parameter(name)], t);
    PrintLiterals(a);
    PrintOne(Parameter(name));
  }

  /** A literal text, a parameter, another literal text, another parameter: the route is written so, and the path with
      the two values in these places fits. */
  lemma TwoParameterRoute(a: string, x: string, b: string, y: string, v: string, w: string)
    requires IsValue(v) && IsValue(w)
    ensures var t := Literals(a) + ([Parameter(x)] + (Literals(b) + ([Parameter(y)] + [])));
      && Print(t) == a + ("{" + x + "}" + (b + ("{" + y + "}" + "")))
      && Names(t) == [x] + ([y] + [])
      && Fits(t, [v] + ([w] + []), a + (v + (b + (w + ""))))
  {
    hide Literals, Print, Names;
    var inner := Literals(b) + ([Parameter(y)] + []);
    PrintThree(a, x, inner);
    PrintThree(b, y, []);
    NothingPrinted();
    ParameterInFront(y, [], w, []);
    LiteralsInFront(b, [Parameter(y)] + [], [w] + []);
    ParameterInFront(x, inner, v, [w] + []);
    LiteralsInFront(a, [Parameter(x)] + inner, [v] + ([w] + []));
  }

  lemma NothingPrinted()
    ensures Print([]) == "" && Names([]) == [] && ParameterCount([]) == 0 && Fill([], []) == ""
  {
  }

  const SENSORS := "sensors/{id}/readings/{type}"

  lemma SensorsText()
    ensures "sensors/" + ("{" + "id" + "}" + ("/readings/" + ("{" + "type" + "}" + ""))) == SENSORS
  {
    assert "{" + "type" + "}" + "" == "{type}";
    assert "{" + "id" + "}" == "{id}";
    assert "/readings/" + "{type}" == "/readings/{type}";
    assert "sensors/" + ("{id}" + "/readings/{type}") == SENSORS;
  }

  lemma SensorsSlashed()
    ensures "/" + SENSORS + "" == "/sensors/{id}/readings/{type}"
  {
  }

  lemma SensorsPath()
    ensures "sensors/" + ("123" + ("/readings/" + ("temperature" + ""))) == "sensors/123/readings/temperature"
  {
  }

  lemma SensorsTrimmed()
    ensures TrimSlashes("/" + SENSORS + "") == SENSORS
  {
    TrimIsUnique("/", SENSORS, "");
  }

  /** The route of the documentation, with slashes around it or not, and a path that fits it. */
  lemma SensorsRoute() returns (t: Template)
    ensures Print(t) == SENSORS && TrimSlashes("/sensors/{id}/readings/{type}") == SENSORS
    ensures Names(t) == ["id", "type"]
    ensures Fits(t, ["123", "temperature"], "sensors/123/readings/temperature")
  {
    hide Print, Names, Fits, Literals, TrimSlashes, SENSORS;
    t := Literals("sensors/") + ([Parameter("id")] + (Literals("/readings/") + ([Parameter("type")] + [])));
    TwoParameterRoute("sensors/", "id", "/readings/", "type", "123", "temperature");
    SensorsText();
    SensorsSlashed();
    SensorsPath();
    SensorsTrimmed();
    assert ["id"] + (["type"] + []) == ["id", "type"] && ["123"] + (["temperature"] + []) == ["123", "temperature"];
  }
}
