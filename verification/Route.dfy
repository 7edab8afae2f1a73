/** The route compiler and matcher of src/router/route.rs. The scanner is proved to be an exact parser of
    templates and the matcher to decide what the template means. */
module Route {
  import opened Coap
  import opened RouteSpec

  datatype RouteError = DifferentPath | FailedToDecodePath

  datatype Route = Route(path: string, regex: Regex, paramNames: seq<string>)

  // The route was compiled from this template.
  ghost predicate IsRouteFor(r: Route, t: Template) {
    Plain(t) && Print(t) == TrimSlashes(r.path) && r.regex == Compile(t) && r.paramNames == Names(t)
  }

  // `pattern.push_str(&regex::escape(text))`
  function PushEscaped(pattern: Regex, text: string): Regex {
    pattern + seq(|text|, i requires 0 <= i < |text| => Char(text[i]))
  }

  // ---------------------------------------------------------------- the scanner

  /** What the scanner has built stands for a template. */
  ghost predicate Stands(pattern: Regex, names: seq<string>, t: Template) {
    Plain(t) && pattern == Compile(t) && names == Names(t)
  }

  lemma CompileAppends(t: Template, u: Template)
    ensures Compile(t + u) == Compile(t) + Compile(u)
  {
  }

  lemma CompileLiterals(s: string)
    ensures PushEscaped([], s) == Compile(Literals(s))
  {
  }

  lemma LiteralsArePlain(text: string)
    requires '{' !in text && '}' !in text
    ensures Plain(Literals(text))
  {
  }

  lemma PushAppends(pattern: Regex, text: string)
    ensures PushEscaped(pattern, text) == pattern + PushEscaped([], text)
  {
  }

  // Pushing literal text.
  lemma StandsWithText(pattern: Regex, names: seq<string>, t: Template, text: string)
    requires Stands(pattern, names, t) && '{' !in text && '}' !in text
    ensures Stands(PushEscaped(pattern, text), names, t + Literals(text))
    ensures Print(t + Literals(text)) == Print(t) + text
  {
    hide Compile, PushEscaped, Print, Names, PlainPart, Literals;
    CompileAppends(t, Literals(text));
    CompileLiterals(text);
    PushAppends(pattern, text);
    PrintAppends(t, Literals(text));
    PrintLiterals(text);
    LiteralsArePlain(text);
    assert names + [] == names;
  }

  // Pushing a parameter.
  lemma StandsWithParameter(pattern: Regex, names: seq<string>, t: Template, name: string)
    requires Stands(pattern, names, t) && PlainPart(Parameter(name))
    ensures Stands(pattern + [Group], names + [name], t + [Parameter(name)])
    ensures Print(t + [Parameter(name)]) == Print(t) + "{" + name + "}"
  {
    CompileAppends(t, [Parameter(name)]);
    PrintAppends(t, [Parameter(name)]);
    PrintOne(Parameter(name));
    Associate(Print(t), "{", name);
    Associate(Print(t), "{" + name, "}");
  }

  lemma DepthStep(s: string, i: nat)
    requires i < |s|
    ensures Depth(s[..i + 1]) == Depth(s[..i]) + match s[i] case '{' => 1 case '}' => -1 case _ => 0
  {
    assert s[..i + 1][..i] == s[..i];
  }

  lemma BalancedStep(s: string, i: nat)
    requires i < |s| && Balanced(s, i) && 0 <= Depth(s[..i + 1]) <= 1
    ensures Balanced(s, i + 1)
  {
  }

  // Outside a parameter: the template covers the segment up to `pos`, and literal text follows.
  ghost predicate Outside(segment: string, idx: nat, pos: nat, printed: string) {
    && pos <= idx <= |segment|
    && printed == segment[..pos]
    && '{' !in segment[pos..idx] && '}' !in segment[pos..idx]
    && Balanced(segment, idx) && Depth(segment[..idx]) == 0
  }

  // Inside one: the template covers the segment up to its opening brace, and its name so far follows.
  ghost predicate Inside(segment: string, idx: nat, paramStart: nat, printed: string) {
    && paramStart < idx <= |segment| && segment[paramStart] == '{'
    && printed == segment[..paramStart]
    && '{' !in segment[paramStart + 1..idx] && '}' !in segment[paramStart + 1..idx]
    && Balanced(segment, idx) && Depth(segment[..idx]) == 1
  }

  lemma OpenParameter(segment: string, idx: nat, pos: nat, printed: string)
    requires Outside(segment, idx, pos, printed) && idx < |segment| && segment[idx] == '{'
    ensures printed + segment[pos..idx] == segment[..idx]
    ensures Inside(segment, idx + 1, idx, segment[..idx])
  {
    DepthStep(segment, idx);
    BalancedStep(segment, idx);
  }

  lemma CloseParameter(segment: string, idx: nat, paramStart: nat, printed: string)
    requires Inside(segment, idx, paramStart, printed) && idx < |segment| && segment[idx] == '}'
    ensures printed + "{" + segment[paramStart + 1..idx] + "}" == segment[..idx + 1]
    ensures Outside(segment, idx + 1, idx + 1, segment[..idx + 1])
  {
    DepthStep(segment, idx);
    BalancedStep(segment, idx);
    assert segment[..paramStart + 1] == segment[..paramStart] + "{";
    assert segment[..idx] == segment[..paramStart + 1] + segment[paramStart + 1..idx];
  }

  lemma OrdinaryOutside(segment: string, idx: nat, pos: nat, printed: string)
    requires Outside(segment, idx, pos, printed) && idx < |segment| && segment[idx] != '{' && segment[idx] != '}'
    ensures Outside(segment, idx + 1, pos, printed)
  {
    DepthStep(segment, idx);
    BalancedStep(segment, idx);
    assert segment[pos..idx + 1] == segment[pos..idx] + [segment[idx]];
  }

  lemma OrdinaryInside(segment: string, idx: nat, paramStart: nat, printed: string)
    requires Inside(segment, idx, paramStart, printed) && idx < |segment| && segment[idx] != '{' && segment[idx] != '}'
    ensures Inside(segment, idx + 1, paramStart, printed)
  {
    DepthStep(segment, idx);
    BalancedStep(segment, idx);
    assert segment[paramStart + 1..idx + 1] == segment[paramStart + 1..idx] + [segment[idx]];
  }

  lemma NestedFault(segment: string, idx: nat, paramStart: nat, printed: string)
    requires Inside(segment, idx, paramStart, printed) && idx < |segment| && segment[idx] == '{'
    ensures HasFault(segment, NestedParameter)
  {
    DepthStep(segment, idx);
  }

  lemma StrayFault(segment: string, idx: nat, pos: nat, printed: string)
    requires Outside(segment, idx, pos, printed) && idx < |segment| && segment[idx] == '}'
    ensures HasFault(segment, UnmatchedClosingBrace)
  {
    DepthStep(segment, idx);
  }

  /** One segment, character by character: literal text is pushed when a parameter opens or the segment ends,
      a group when a parameter closes. A panic becomes the fault it reports. */
  method ScanSegment(segment: string, pattern0: Regex, names0: seq<string>, ghost t0: Template)
    returns (fault: Option<Fault>, pattern: Regex, paramNames: seq<string>, ghost t: Template)
    requires Stands(pattern0, names0, t0) && '/' !in segment
    ensures fault.Some? ==> HasFault(segment, fault.value)
    ensures fault.None? ==> WellBraced(segment) && Stands(pattern, paramNames, t) && Print(t) == Print(t0) + segment
  {
    hide Stands, Outside, Inside, PushEscaped, HasFault, Print, PlainPart;
    pattern, paramNames, t := pattern0, names0, t0;
    var pos, inParam, paramStart := 0, false, 0;
    ghost var printed := "";
    assert Print(t) == Print(t0) + printed;
    StartOutside(segment);
    for idx := 0 to |segment|
      invariant Stands(pattern, paramNames, t) && Print(t) == Print(t0) + printed
      invariant pos <= idx && (inParam ==> paramStart < idx)
      invariant if inParam then Inside(segment, idx, paramStart, printed) else Outside(segment, idx, pos, printed)
    {
      var ch := segment[idx];
      if ch == '{' {
        if inParam {
          NestedFault(segment, idx, paramStart, printed);
          return Some(NestedParameter), pattern, paramNames, t;
        }
        inParam := true;
        paramStart := idx;
        OutsideText(segment, idx, pos, printed);
        ghost var text := segment[pos..idx];
        StandsWithText(pattern, paramNames, t, text);
        if idx > pos {
          pattern := PushEscaped(pattern, segment[pos..idx]);
        } else {
          NothingPushed(pattern);
        }
        OpenParameter(segment, idx, pos, printed);
        Associate(Print(t0), printed, text);
        t, printed := t + Literals(text), segment[..idx];
      } else if ch == '}' {
        if !inParam {
          StrayFault(segment, idx, pos, printed);
          return Some(UnmatchedClosingBrace), pattern, paramNames, t;
        }
        inParam := false;
        InsideName(segment, idx, paramStart, printed);
        var paramName := segment[paramStart + 1..idx];
        StandsWithParameter(pattern, paramNames, t, paramName);
        paramNames := paramNames + [paramName];
        pattern := pattern + [Group];
        pos := idx + 1;
        CloseParameter(segment, idx, paramStart, printed);
        AssociateParameter(Print(t0), printed, paramName);
        t, printed := t + [Parameter(paramName)], segment[..idx + 1];
      } else if inParam {
        OrdinaryInside(segment, idx, paramStart, printed);
      } else {
        OrdinaryOutside(segment, idx, pos, printed);
      }
    }
    if inParam {
      EndInside(segment, paramStart, printed);
      return Some(UnclosedParameter), pattern, paramNames, t;
    }
    EndOutside(segment, pos, printed);
    StandsWithText(pattern, paramNames, t, segment[pos..]);
    if pos < |segment| {
      pattern := PushEscaped(pattern, segment[pos..]);
    } else {
      NothingPushed(pattern);
    }
    Associate(Print(t0), printed, segment[pos..]);
    t := t + Literals(segment[pos..]);
    fault := None;
  }

  lemma StartOutside(segment: string)
    ensures Outside(segment, 0, 0, "")
  {
  }

  lemma OutsideText(segment: string, idx: nat, pos: nat, printed: string)
    requires Outside(segment, idx, pos, printed)
    ensures pos <= idx <= |segment| && '{' !in segment[pos..idx] && '}' !in segment[pos..idx]
  {
  }

  lemma InsideName(segment: string, idx: nat, paramStart: nat, printed: string)
    requires Inside(segment, idx, paramStart, printed) && '/' !in segment
    ensures paramStart + 1 <= idx <= |segment| && PlainPart(Parameter(segment[paramStart + 1..idx]))
  {
  }

  lemma NothingPushed(pattern: Regex)
    ensures PushEscaped(pattern, []) == pattern
  {
  }

  lemma AssociateParameter(a: string, b: string, name: string)
    ensures (a + b) + "{" + name + "}" == a + (b + "{" + name + "}")
  {
    Associate(a, b, "{");
    Associate(a, b + "{", name);
    Associate(a, b + "{" + name, "}");
  }

  lemma EndInside(segment: string, paramStart: nat, printed: string)
    requires Inside(segment, |segment|, paramStart, printed)
    ensures HasFault(segment, UnclosedParameter)
  {
    assert segment[..|segment|] == segment;
  }

  lemma EndOutside(segment: string, pos: nat, printed: string)
    requires Outside(segment, |segment|, pos, printed)
    ensures WellBraced(segment) && pos <= |segment| && printed + segment[pos..] == segment
    ensures '{' !in segment[pos..] && '}' !in segment[pos..]
  {
    assert segment[..|segment|] == segment;
    assert segment[pos..] == segment[pos..|segment|];
  }

  // The fault of the first segment that is not well braced.
  ghost predicate IsFirstFault(segments: seq<string>, fault: Fault) {
    exists i :: 0 <= i < |segments| && HasFault(segments[i], fault) && forall j | 0 <= j < i :: WellBraced(segments[j])
  }

  /** An exact parser: it fails iff some segment is not well braced, with the fault of the first such segment;
      otherwise the regex is that of the one plain template that prints as the slash-trimmed route, and the
      names are its parameters'. */
  method BuildRegex(route: string) returns (r: Result<(Regex, seq<string>), Fault>, ghost t: Template)
    ensures r.Err? <==> exists segment :: segment in Split(TrimSlashes(route)) && !WellBraced(segment)
    ensures r.Err? ==> IsFirstFault(Split(TrimSlashes(route)), r.error)
    ensures r.Ok? ==> Stands(r.value.0, r.value.1, t) && Print(t) == TrimSlashes(route)
  {
    hide Stands, Print, HasFault, WellBraced, TrimSlashes, Split, Join, PushEscaped;
    var trimmed := TrimSlashes(route);
    var segments := Split(trimmed);
    JoinSplit(trimmed);
    var pattern: Regex, paramNames: seq<string> := [], [];
    t := [];
    NothingStands();
    for i := 0 to |segments|
      invariant Stands(pattern, paramNames, t)
      invariant forall j | 0 <= j < i :: WellBraced(segments[j])
      invariant Print(t) == if i == 0 then [] else Join(segments[..i])
    {
      ghost var before := Print(t);
      if i > 0 {
        StandsWithText(pattern, paramNames, t, "/");
        pattern := PushEscaped(pattern, "/");
        t := t + Literals("/");
      }
      ghost var start := Print(t);
      JoinNext(segments, i);
      assert start + segments[i] == Join(segments[..i + 1]);
      var fault;
      fault, pattern, paramNames, t := ScanSegment(segments[i], pattern, paramNames, t);
      if fault.Some? {
        OneFault(segments[i], fault.value, fault.value);
        assert segments[i] in segments;
        return Err(fault.value), t;
      }
    }
    assert segments[..|segments|] == segments;
    r := Ok((pattern, paramNames));
  }

  lemma NothingStands()
    ensures Stands([], [], []) && Print([]) == []
  {
  }

  lemma JoinNext(segments: seq<string>, i: nat)
    requires i < |segments|
    ensures Join(segments[..i + 1]) == (if i == 0 then [] else Join(segments[..i]) + "/") + segments[i]
  {
    assert segments[..i + 1][..i] == segments[..i];
  }

  /** The template of a route is determined by its text: nothing else plain prints like it. */
  lemma TemplateIsDetermined(r: Route, t: Template, u: Template)
    requires IsRouteFor(r, t) && IsRouteFor(r, u)
    ensures t == u
  {
    PrintIsInjective(t, u);
  }

  /** A compiled regex has as many groups as there are parameter names. */
  lemma {:induction false} OneNamePerGroup(t: Template)
    ensures |Names(t)| == ParameterCount(t)
  {
    if t != [] {
      PrintFromFront(t);
      OneNamePerGroup(t[1..]);
    }
  }

  // `Route::new`, which panics where this reports a fault.
  method New(route: string) returns (r: Result<Route, Fault>, ghost t: Template)
    ensures r.Err? <==> exists segment :: segment in Split(TrimSlashes(route)) && !WellBraced(segment)
    ensures r.Err? ==> IsFirstFault(Split(TrimSlashes(route)), r.error)
    ensures r.Ok? ==> r.value.path == route && IsRouteFor(r.value, t)
  {
    var built;
    built, t := BuildRegex(route);
    if built.Err? {
      return Err(built.error), t;
    }
    r := Ok(Route(route, built.value.0, built.value.1));
  }

  // ---------------------------------------------------------------- the matcher

  // `PercentDecodedStr::new`: None when the decoded bytes are not UTF-8.
  type Decoder = string -> Option<string>

  type Matched = Result<seq<(string, string)>, RouteError>

  // What MatchPath promises of its answer, `values` being the raw values of the parameters.
  ghost predicate IsAnswer(t: Template, path: string, decode: Decoder, r: Matched, values: seq<string>) {
    && (r == Err(DifferentPath) <==> forall vs :: !Fits(t, vs, TrimSlashes(path)))
    && (r != Err(DifferentPath) ==>
          && Fits(t, values, TrimSlashes(path))
          && (forall vs | Fits(t, vs, TrimSlashes(path)) :: Greedier(values, vs))
          && (r.Err? <==> exists i :: 0 <= i < |values| && decode(values[i]).None?))
    && (r.Ok? ==>
          && |r.value| == |values| == |Names(t)|
          && forall i | 0 <= i < |values| :: decode(values[i]) == Some(r.value[i].1) && r.value[i].0 == Names(t)[i])
  }

  /** Matches a path: DifferentPath iff the template has no decomposition of the trimmed path; otherwise the
      parameters with the decoded values of the greediest decomposition, or FailedToDecodePath iff one of those
      does not decode. */
  method MatchPath(route: Route, path: string, decode: Decoder, ghost t: Template)
    returns (r: Matched, ghost values: seq<string>)
    requires IsRouteFor(route, t)
    ensures r == Err(DifferentPath) <==> forall vs :: !Fits(t, vs, TrimSlashes(path))
    ensures r != Err(DifferentPath) ==>
      && Fits(t, values, TrimSlashes(path))
      && (forall vs | Fits(t, vs, TrimSlashes(path)) :: Greedier(values, vs))
      && (r.Err? <==> exists i :: 0 <= i < |values| && decode(values[i]).None?)
    ensures r.Ok? ==>
      && |r.value| == |values| == |Names(t)|
      && forall i | 0 <= i < |values| :: decode(values[i]) == Some(r.value[i].1) && r.value[i].0 == Names(t)[i]
    ensures IsAnswer(t, path, decode, r, values)
  {
    hide Fits, Captures, Compile, Names, TrimSlashes, Greedier;
    values := [];
    var trimmed := TrimSlashes(path);
    var captures := Captures(route.regex, trimmed);
    OneNamePerGroup(t);
    if captures.None? {
      forall vs ensures !Fits(t, vs, trimmed) {
        if Fits(t, vs, trimmed) {
          FittingIsCaptured(t, vs, trimmed);
        }
      }
      return Err(DifferentPath), values;
    }
    CapturesFit(t, trimmed);
    values := captures.value;
    assert |values| == ParameterCount(t) by { FitsCount(t, values, trimmed); }
    forall vs | Fits(t, vs, trimmed) ensures Greedier(values, vs) {
      FittingIsCaptured(t, vs, trimmed);
    }
    var params: seq<(string, string)> := [];
    for i := 0 to |route.paramNames|
      invariant |params| == i
      invariant forall k | 0 <= k < i :: decode(values[k]) == Some(params[k].1) && params[k].0 == route.paramNames[k]
    {
      var value := captures.value[i];
      var decoded := decode(value);
      if decoded.None? {
        return Err(FailedToDecodePath), values;
      }
      params := params + [(route.paramNames[i], decoded.value)];
    }
    r := Ok(params);
  }

  lemma PrefixAgrees(a: seq<string>, b: seq<string>, n: nat)
    requires n <= |a| && n <= |b| && a[..n] == b[..n]
    ensures forall k | 0 <= k < n :: a[k] == b[k]
  {
    forall k | 0 <= k < n ensures a[k] == b[k] {
      assert a[..n][k] == b[..n][k];
    }
  }

  lemma GreediestIsUnique(a: seq<string>, b: seq<string>)
    requires Greedier(a, b) && Greedier(b, a)
    ensures a == b
  {
    if a != b {
      var i :| 0 <= i < |a| && i < |b| && a[..i] == b[..i] && |a[i]| > |b[i]|;
      var j :| 0 <= j < |a| && j < |b| && a[..j] == b[..j] && |b[j]| > |a[j]|;
      PrefixAgrees(a, b, i);
      PrefixAgrees(a, b, j);
    }
  }

  /** The answer is determined by the route's text and the path's, and of both the slashes at the ends do not count:
      two routes and two paths that differ in nothing else give the same answer. */
  lemma OuterSlashesDoNotMatter(r1: Route, r2: Route, t1: Template, t2: Template, path1: string, path2: string,
                                decode: Decoder, a1: Matched, a2: Matched, values1: seq<string>, values2: seq<string>)
    requires IsRouteFor(r1, t1) && IsRouteFor(r2, t2)
    requires IsAnswer(t1, path1, decode, a1, values1) && IsAnswer(t2, path2, decode, a2, values2)
    requires exists l, r :: AllSlashes(l) && AllSlashes(r) && r2.path == l + r1.path + r
    requires exists l, r :: AllSlashes(l) && AllSlashes(r) && path2 == l + path1 + r
    ensures t1 == t2 && a1 == a2
  {
    hide Fits, Greedier, TrimSlashes, Plain, Print, Compile, AllSlashes;
    var l, r :| AllSlashes(l) && AllSlashes(r) && r2.path == l + r1.path + r;
    OuterSlashesAreTrimmed(l, r1.path, r);
    PrintIsInjective(t1, t2);
    var m, n :| AllSlashes(m) && AllSlashes(n) && path2 == m + path1 + n;
    OuterSlashesAreTrimmed(m, path1, n);
    AnswerIsDetermined(t1, path1, path2, decode, a1, a2, values1, values2);
  }

  lemma AnswerIsDetermined(t: Template, path1: string, path2: string, decode: Decoder, a1: Matched, a2: Matched,
                           values1: seq<string>, values2: seq<string>)
    requires TrimSlashes(path1) == TrimSlashes(path2)
    requires IsAnswer(t, path1, decode, a1, values1) && IsAnswer(t, path2, decode, a2, values2)
    ensures a1 == a2
  {
    hide Fits, Greedier, TrimSlashes;
    var s := TrimSlashes(path1);
    if a1 == Err(DifferentPath) {
      assert forall vs :: !Fits(t, vs, s);
    } else {
      assert Fits(t, values1, s) && a2 != Err(DifferentPath) && Fits(t, values2, s);
      GreediestIsUnique(values1, values2);
      assert a1.Err? <==> a2.Err?;
      assert a1.Err? ==> a1.error == FailedToDecodePath == a2.error;
      if a1.Ok? && a2.Ok? {
        forall i | 0 <= i < |values1| ensures a1.value[i] == a2.value[i] {
          assert decode(values1[i]) == Some(a1.value[i].1) && decode(values2[i]) == Some(a2.value[i].1);
        }
        assert a1.value == a2.value;
      }
    }
  }

  lemma FitsCount(t: Template, values: seq<string>, s: string)
    requires Fits(t, values, s)
    ensures |values| == ParameterCount(t)
  {
  }
}
