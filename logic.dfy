/**
 * The gate evaluator and the readiness score of `src/logic.ts`.
 *
 * A gate expression mentions `age()`, `level('ID')` and `confidence('ID')`.
 * These calls are replaced textually by the provider's numbers, the result is
 * checked against a character allow-list, and only then handed to the
 * JavaScript evaluator. Turning a number into text (`String(n)`) and the
 * evaluator itself are parameters: `show` and `jsEval`, where `jsEval`
 * returns the truthiness of the value, or `None` when evaluation throws.
 */
module Logic {
  import opened Common
  import opened Types

  /** What a gate can ask about a child. */
  datatype StateProvider = StateProvider(level: string -> real, confidence: string -> real, ageMonths: real)

  /** logic.ts:22-26: every level and confidence 0, age as given. */
  function MakeDefaultState(ageM: real): (s: StateProvider)
    ensures forall id :: s.level(id) == 0.0 && s.confidence(id) == 0.0
    ensures s.ageMonths == ageM
  {
    StateProvider(_ => 0.0, _ => 0.0, ageM)
  }

  // ---------------------------------------------------------------------
  // Token substitution (logic.ts:31-36)
  // ---------------------------------------------------------------------

  /** The characters JavaScript's `\s` matches. */
  predicate IsJsSpace(c: char)
  {
    || c == '\t' || c == '\n' || c == '\U{000B}' || c == '\U{000C}' || c == '\r' || c == ' '
    || c == '\U{00A0}' || c == '\U{1680}' || ('\U{2000}' <= c <= '\U{200A}')
    || c == '\U{2028}' || c == '\U{2029}' || c == '\U{202F}' || c == '\U{205F}'
    || c == '\U{3000}' || c == '\U{FEFF}'
  }

  /** Only white space (the `\s*` parts of a call). */
  predicate AllSpaces(w: string)
  {
    forall i :: 0 <= i < |w| ==> IsJsSpace(w[i])
  }

  predicate NoQuote(id: string)
  {
    forall i :: 0 <= i < |id| ==> id[i] != '\''
  }

  /** What `([^']+)` captures: a non-empty run without a quote. */
  predicate QuotedId(id: string)
  {
    |id| > 0 && NoQuote(id)
  }

  /** Length of the run of white space that starts `s` (`\s*`). */
  function SkipSpaces(s: string): (r: nat)
    ensures r <= |s|
  {
    if s == [] || !IsJsSpace(s[0]) then 0 else 1 + SkipSpaces(s[1..])
  }

  /** Length of the run of non-quote characters that starts `s` (`[^']*`). */
  function QuoteFree(s: string): (r: nat)
    ensures r <= |s|
  {
    if s == [] || s[0] == '\'' then 0 else 1 + QuoteFree(s[1..])
  }

  /**
   * A match of `NAME\(\s*'([^']+)'\s*\)` at the start of `s`: the quoted id
   * and the length of the match.
   */
  function MatchCall(s: string, name: string): (m: Option<(string, nat)>)
    ensures m.Some? ==> 0 < m.value.1 <= |s|
  {
    var open := name + "(";
    if !(open <= s) then None
    else match MatchArg(s[|open|..])
      case None => None
      case Some((id, n)) => Some((id, |open| + n))
  }

  /** `\s*'([^']+)'\s*\)` at the start of `t`. */
  function MatchArg(t: string): (m: Option<(string, nat)>)
    ensures m.Some? ==> 0 < m.value.1 <= |t|
  {
    var a := SkipSpaces(t);
    if a >= |t| || t[a] != '\'' then None
    else match MatchQuoted(t[a + 1..])
      case None => None
      case Some((id, n)) => Some((id, a + 1 + n))
  }

  /** `([^']+)'\s*\)` at the start of `u`. */
  function MatchQuoted(u: string): (m: Option<(string, nat)>)
    ensures m.Some? ==> 0 < m.value.1 <= |u|
  {
    var b := QuoteFree(u);
    if b == 0 || b >= |u| then None
    else match MatchClose(u[b + 1..])
      case None => None
      case Some(n) => Some((u[..b], b + 1 + n))
  }

  /** `\s*\)` at the start of `v`. */
  function MatchClose(v: string): (m: Option<nat>)
    ensures m.Some? ==> 0 < m.value <= |v|
  {
    var c := SkipSpaces(v);
    if c >= |v| || v[c] != ')' then None else Some(c + 1)
  }

  /** Global replacement of the calls `NAME('ID')` by `f(ID)`, scanning left to right. */
  function ReplaceCalls(s: string, name: string, f: string -> string): string
    decreases |s|
  {
    if s == [] then []
    else match MatchCall(s, name)
      case Some((id, n)) => f(id) + ReplaceCalls(s[n..], name, f)
      case None => [s[0]] + ReplaceCalls(s[1..], name, f)
  }

  /** Global replacement of `age()` by `v`. */
  function ReplaceAge(s: string, v: string): string
    decreases |s|
  {
    if s == [] then []
    else if "age()" <= s then v + ReplaceAge(s[5..], v)
    else [s[0]] + ReplaceAge(s[1..], v)
  }

  function ShowLevel(state: StateProvider, show: real -> string): string -> string
  {
    id => show(state.level(id))
  }

  function ShowConfidence(state: StateProvider, show: real -> string): string -> string
  {
    id => show(state.confidence(id))
  }

  /** logic.ts:31-36: the three replacements, in the source's order. */
  function Substitute(expr: string, state: StateProvider, show: real -> string): string
  {
    var r1 := ReplaceAge(expr, show(state.ageMonths));
    var r2 := ReplaceCalls(r1, "level", ShowLevel(state, show));
    ReplaceCalls(r2, "confidence", ShowConfidence(state, show))
  }

  /** The text of one call, with white space around the quoted id, followed by `post`. */
  function CallThen(name: string, w1: string, id: string, w2: string, post: string): string
  {
    name + "(" + (w1 + ("'" + (id + ("'" + (w2 + (")" + post))))))
  }

  /** No call starts at a character other than the first letter of `name`. */
  lemma NoCallHere(s: string, name: string)
    requires |s| > 0 && |name| > 0 && s[0] != name[0]
    ensures MatchCall(s, name).None?
  {
    var open := name + "(";
    if |s| >= |open| {
      assert s[..|open|][0] == s[0];
      assert open[0] == name[0];
    }
  }

  /** Where no call starts, one character passes through. */
  lemma PassOne(s: string, name: string, f: string -> string)
    requires |s| > 0 && |name| > 0 && s[0] != name[0]
    ensures ReplaceCalls(s, name, f) == [s[0]] + ReplaceCalls(s[1..], name, f)
  {
    NoCallHere(s, name);
  }

  /** Text before the first letter of `name` passes through unchanged. */
  lemma ReplaceCallsPlain(pre: string, rest: string, name: string, f: string -> string)
    requires |name| > 0 && forall i :: 0 <= i < |pre| ==> pre[i] != name[0]
    ensures ReplaceCalls(pre + rest, name, f) == pre + ReplaceCalls(rest, name, f)
  {
    var s := pre + rest;
    PlainFrom(s, 0, |pre|, name, f);
    assert s[0..] == s && s[0..|pre|] == pre && s[|pre|..] == rest;
  }

  lemma {:induction false} PlainFrom(s: string, j: nat, k: nat, name: string, f: string -> string)
    requires |name| > 0 && j <= k <= |s| && forall i :: j <= i < k ==> s[i] != name[0]
    ensures ReplaceCalls(s[j..], name, f) == s[j..k] + ReplaceCalls(s[k..], name, f)
    decreases k - j
  {
    if j < k {
      var rest := ReplaceCalls(s[k..], name, f);
      PassOne(s[j..], name, f);
      assert s[j..][1..] == s[j + 1..] && s[j..][0] == s[j];
      PlainFrom(s, j + 1, k, name, f);
      assert s[j..k] == [s[j]] + s[j + 1..k];
      ConsAssoc(s[j], s[j + 1..k], rest);
    } else {
      assert s[j..k] == [];
    }
  }

  lemma ConsAssoc<T>(x: T, a: seq<T>, b: seq<T>)
    ensures [x] + (a + b) == ([x] + a) + b
  {
  }

  lemma {:induction false} SpacesThen(w: string, rest: string)
    requires AllSpaces(w)
    requires |rest| > 0 && !IsJsSpace(rest[0])
    ensures SkipSpaces(w + rest) == |w|
    decreases |w|
  {
    if w == [] {
      assert w + rest == rest;
    } else {
      assert (w + rest)[0] == w[0];
      assert (w + rest)[1..] == w[1..] + rest;
      SpacesThen(w[1..], rest);
    }
  }

  lemma {:induction false} QuoteFreeThen(id: string, rest: string)
    requires NoQuote(id)
    requires |rest| > 0 && rest[0] == '\''
    ensures QuoteFree(id + rest) == |id|
    decreases |id|
  {
    if id == [] {
      assert id + rest == rest;
    } else {
      assert (id + rest)[0] == id[0];
      assert (id + rest)[1..] == id[1..] + rest;
      QuoteFreeThen(id[1..], rest);
    }
  }

  lemma CloseAt(v: string, w2: string, post: string)
    requires v == w2 + (")" + post)
    requires AllSpaces(w2)
    ensures MatchClose(v) == Some(|w2| + 1)
  {
    SpacesThen(w2, ")" + post);
    assert v[|w2|] == ')';
  }

  lemma QuotedAt(u: string, id: string, v: string)
    requires u == id + ("'" + v)
    requires QuotedId(id)
    requires MatchClose(v).Some?
    ensures MatchQuoted(u) == Some((id, |id| + 1 + MatchClose(v).value))
  {
    QuoteFreeThen(id, "'" + v);
    assert u[..|id|] == id;
    assert u[|id| + 1..] == v;
  }

  lemma ArgAt(t: string, w1: string, u: string)
    requires t == w1 + ("'" + u)
    requires AllSpaces(w1)
    requires MatchQuoted(u).Some?
    ensures MatchArg(t) == Some((MatchQuoted(u).value.0, |w1| + 1 + MatchQuoted(u).value.1))
  {
    SpacesThen(w1, "'" + u);
    assert t[|w1|] == '\'';
    assert t[|w1| + 1..] == u;
  }

  lemma CallAt(s: string, name: string, t: string)
    requires s == name + "(" + t
    requires MatchArg(t).Some?
    ensures MatchCall(s, name) == Some((MatchArg(t).value.0, |name| + 1 + MatchArg(t).value.1))
  {
    var open := name + "(";
    assert s[..|open|] == open;
    assert s[|open|..] == t;
  }

  lemma QuotedMatches(id: string, w2: string, post: string)
    requires AllSpaces(w2) && QuotedId(id)
    ensures MatchQuoted(id + ("'" + (w2 + (")" + post)))) == Some((id, |id| + |w2| + 2))
  {
    var v := w2 + (")" + post);
    CloseAt(v, w2, post);
    QuotedAt(id + ("'" + v), id, v);
  }

  lemma ArgMatches(w1: string, id: string, w2: string, post: string)
    requires AllSpaces(w1) && AllSpaces(w2) && QuotedId(id)
    ensures MatchArg(w1 + ("'" + (id + ("'" + (w2 + (")" + post)))))) == Some((id, |w1| + |id| + |w2| + 3))
  {
    var u := id + ("'" + (w2 + (")" + post)));
    QuotedMatches(id, w2, post);
    ArgAt(w1 + ("'" + u), w1, u);
  }

  /** A well-formed call is matched in full, and its quoted id extracted. */
  lemma CallMatches(name: string, w1: string, id: string, w2: string, post: string)
    requires AllSpaces(w1) && AllSpaces(w2) && QuotedId(id)
    ensures MatchCall(CallThen(name, w1, id, w2, post), name)
         == Some((id, |CallThen(name, w1, id, w2, post)| - |post|))
  {
    var s := CallThen(name, w1, id, w2, post);
    var t := w1 + ("'" + (id + ("'" + (w2 + (")" + post)))));
    assert s == name + "(" + t;
    ArgMatches(w1, id, w2, post);
    CallAt(s, name, t);
    CallLength(name, w1, id, w2, post);
  }

  lemma CallLength(name: string, w1: string, id: string, w2: string, post: string)
    ensures |CallThen(name, w1, id, w2, post)| - |post| == |name| + 1 + (|w1| + |id| + |w2| + 3)
  {
  }

  /**
   * Each call `NAME('ID')`, with any white space inside the parentheses, is
   * replaced by `f(ID)`; the text before it is kept when it holds no letter
   * that could start another call.
   */
  lemma CallReplaced(pre: string, name: string, w1: string, id: string, w2: string, post: string, f: string -> string)
    requires |name| > 0 && forall i :: 0 <= i < |pre| ==> pre[i] != name[0]
    requires AllSpaces(w1) && AllSpaces(w2) && QuotedId(id)
    ensures ReplaceCalls(pre + CallThen(name, w1, id, w2, post), name, f)
      == pre + (f(id) + ReplaceCalls(post, name, f))
  {
    var call := CallThen(name, w1, id, w2, post);
    ReplaceCallsPlain(pre, call, name, f);
    CallMatches(name, w1, id, w2, post);
    CallThenEnds(name, w1, id, w2, post);
  }

  /** What follows the call is `post`. */
  lemma CallThenEnds(name: string, w1: string, id: string, w2: string, post: string)
    ensures |CallThen(name, w1, id, w2, post)| >= |post|
    ensures CallThen(name, w1, id, w2, post)[|CallThen(name, w1, id, w2, post)| - |post|..] == post
  {
    var s := CallThen(name, w1, id, w2, post);
    var k := |s| - |post|;
    forall i | 0 <= i < |post| ensures s[k + i] == post[i] {
    }
  }

  /** Each `age()` is replaced by the age shown as text. */
  lemma AgeReplaced(pre: string, post: string, v: string)
    requires forall i :: 0 <= i < |pre| ==> pre[i] != 'a'
    ensures ReplaceAge(pre + "age()" + post, v) == pre + v + ReplaceAge(post, v)
  {
    var s := "age()" + post;
    AgePlain(pre, s, v);
    assert s[..5] == "age()" && s[5..] == post;
    assert pre + "age()" + post == pre + s;
  }

  lemma {:induction false} AgePlain(pre: string, rest: string, v: string)
    requires forall i :: 0 <= i < |pre| ==> pre[i] != 'a'
    ensures ReplaceAge(pre + rest, v) == pre + ReplaceAge(rest, v)
    decreases |pre|
  {
    if pre == [] {
      assert pre + rest == rest;
    } else {
      var s := pre + rest;
      assert s[0] == pre[0];
      if |s| >= 5 {
        assert s[..5][0] == s[0];
        assert "age()"[0] == 'a';
      }
      assert s[1..] == pre[1..] + rest;
      AgePlain(pre[1..], rest, v);
      assert pre == [pre[0]] + pre[1..];
    }
  }

  // ---------------------------------------------------------------------
  // The allow-list (logic.ts:39-46)
  // ---------------------------------------------------------------------

  /** `[\d\s\.\+\-\*\/\(\)<>=&|!]` */
  predicate AllowedChar(c: char)
  {
    ('0' <= c <= '9') || IsJsSpace(c) || c in ".+-*/()<>=&|!"
  }

  /** `[\d\s\.\+\-\*\/\(\)<>=!]` */
  predicate AllowedNoLogicChar(c: char)
  {
    ('0' <= c <= '9') || IsJsSpace(c) || c in ".+-*/()<>=!"
  }

  /** `/^[...]+$/.test(s)`: non-empty, and every character allowed. */
  predicate AllAllowed(s: string)
  {
    |s| > 0 && forall i :: 0 <= i < |s| ==> AllowedChar(s[i])
  }

  predicate AllAllowedNoLogic(s: string)
  {
    |s| > 0 && forall i :: 0 <= i < |s| ==> AllowedNoLogicChar(s[i])
  }

  /** Global removal of the pair `cc`, left to right (`replace(/&&/g, "")`). */
  function StripPair(s: string, c: char): string
    decreases |s|
  {
    if s == [] then []
    else if |s| >= 2 && s[0] == c && s[1] == c then StripPair(s[2..], c)
    else [s[0]] + StripPair(s[1..], c)
  }

  /** The source's two-stage test: the allow-list, or the allow-list without `&&` and `||`. */
  predicate Accepted(s: string)
  {
    AllAllowed(s) || AllAllowedNoLogic(StripPair(StripPair(s, '&'), '|'))
  }

  /** Every character other than `c` survives the stripping, and nothing new appears. */
  lemma {:induction false} StripKeeps(s: string, c: char)
    ensures forall i :: 0 <= i < |s| && s[i] != c ==> s[i] in StripPair(s, c)
    ensures forall x :: x in StripPair(s, c) ==> x in s
    ensures s != [] ==> (StripPair(s, c) == [] ==> s[0] == c)
    decreases |s|
  {
    if s != [] {
      if |s| >= 2 && s[0] == c && s[1] == c {
        StripKeeps(s[2..], c);
        forall i | 0 <= i < |s| && s[i] != c ensures s[i] in StripPair(s, c) {
          assert s[i] == s[2..][i - 2];
        }
      } else {
        StripKeeps(s[1..], c);
        forall i | 0 <= i < |s| && s[i] != c ensures s[i] in StripPair(s, c) {
          if i > 0 { assert s[i] == s[1..][i - 1]; }
        }
      }
    }
  }

  /**
   * The second test never accepts a string the first rejected: acceptance is
   * exactly the first allow-list.
   */
  lemma AcceptedIffAllowed(s: string)
    ensures Accepted(s) <==> AllAllowed(s)
  {
    var t := StripPair(s, '&');
    var u := StripPair(t, '|');
    if AllAllowedNoLogic(u) {
      StripKeeps(s, '&');
      StripKeeps(t, '|');
      assert s != [];
      forall i | 0 <= i < |s| ensures AllowedChar(s[i]) {
        if s[i] != '&' {
          assert s[i] in t;
          var j :| 0 <= j < |t| && t[j] == s[i];
          if t[j] != '|' {
            assert t[j] in u;
            var k :| 0 <= k < |u| && u[k] == s[i];
            assert AllowedNoLogicChar(u[k]);
          }
        }
      }
    }
  }

  /**
   * logic.ts:29-57: substitute, test against the allow-list, evaluate; a
   * rejected string and an evaluation error both give `false`.
   */
  function EvalGateExpr(expr: string, state: StateProvider, show: real -> string,
                        jsEval: string -> Option<bool>): (b: bool)
    ensures b <==> AllAllowed(Substitute(expr, state, show)) && jsEval(Substitute(expr, state, show)) == Some(true)
  {
    var replaced := Substitute(expr, state, show);
    AcceptedIffAllowed(replaced);
    if !Accepted(replaced) then false
    else
      match jsEval(replaced)
      case None => false
      case Some(v) => v
  }

  /** Any character outside the allow-list blocks the gate, whatever the evaluator would say. */
  lemma UnsafeBlocked(expr: string, state: StateProvider, show: real -> string,
                      jsEval: string -> Option<bool>, i: nat)
    requires i < |Substitute(expr, state, show)| && !AllowedChar(Substitute(expr, state, show)[i])
    ensures !EvalGateExpr(expr, state, show, jsEval)
  {
  }

  // ---------------------------------------------------------------------
  // Readiness (logic.ts:60-79)
  // ---------------------------------------------------------------------

  function Max(a: real, b: real): real { if a >= b then a else b }

  function Min(a: real, b: real): real { if a <= b then a else b }

  /** One gate's effect; `None` means the score function has already returned 0. */
  function GateStep(score: Option<real>, kind: GateKind, passed: bool): Option<real>
  {
    match score
    case None => None
    case Some(s) =>
      match kind
      case Prereq => if !passed then None else Some(Max(s, 0.6))
      case Block => if passed then None else Some(s)
      case Boost => if passed then Some(Min(1.0, s + 0.2)) else Some(s)
  }

  /** The score after the gates, starting from 0.5. */
  function FoldGates(gs: seq<Gate>, pass: Gate -> bool): Option<real>
  {
    if gs == [] then Some(0.5)
    else GateStep(FoldGates(gs[..|gs| - 1], pass), gs[|gs| - 1].kind, pass(gs[|gs| - 1]))
  }

  function Readiness(gates: Option<seq<Gate>>, pass: Gate -> bool): real
  {
    if gates.None? || |gates.value| == 0 then 0.5
    else GetOr(FoldGates(gates.value, pass), 0.0)
  }

  function GatePasses(state: StateProvider, show: real -> string, jsEval: string -> Option<bool>): Gate -> bool
  {
    (g: Gate) => EvalGateExpr(g.expr, state, show, jsEval)
  }

  /** logic.ts:60-79 */
  method ReadinessScore(nodeId: string, gates: Option<seq<Gate>>, state: StateProvider,
                        show: real -> string, jsEval: string -> Option<bool>) returns (r: real)
    ensures r == Readiness(gates, GatePasses(state, show, jsEval))
  {
    ghost var pass := GatePasses(state, show, jsEval);
    if gates.None? || |gates.value| == 0 {
      return 0.5;
    }
    var gs := gates.value;
    var score := 0.5;
    for i := 0 to |gs|
      invariant FoldGates(gs[..i], pass) == Some(score)
    {
      var g := gs[i];
      var passed := EvalGateExpr(g.expr, state, show, jsEval);
      assert pass(g) == passed;
      FoldOne(gs, pass, i, score);
      if g.kind == Prereq {
        if !passed {
          StoppedStaysStopped(gs, pass, i + 1);
          return 0.0;
        }
        score := Max(score, 0.6);
      } else if g.kind == Block {
        if passed {
          StoppedStaysStopped(gs, pass, i + 1);
          return 0.0;
        }
      } else if passed {
        score := Min(1.0, score + 0.2);
      }
    }
    assert gs[..|gs|] == gs;
    r := score;
  }

  /** The effect of gate `i` on the score so far, case by case. */
  lemma FoldOne(gs: seq<Gate>, pass: Gate -> bool, i: nat, score: real)
    requires i < |gs| && FoldGates(gs[..i], pass) == Some(score)
    ensures gs[i].kind == Prereq && !pass(gs[i]) ==> FoldGates(gs[..i + 1], pass).None?
    ensures gs[i].kind == Prereq && pass(gs[i]) ==> FoldGates(gs[..i + 1], pass) == Some(Max(score, 0.6))
    ensures gs[i].kind == Block && pass(gs[i]) ==> FoldGates(gs[..i + 1], pass).None?
    ensures gs[i].kind == Block && !pass(gs[i]) ==> FoldGates(gs[..i + 1], pass) == Some(score)
    ensures gs[i].kind == Boost && pass(gs[i]) ==> FoldGates(gs[..i + 1], pass) == Some(Min(1.0, score + 0.2))
    ensures gs[i].kind == Boost && !pass(gs[i]) ==> FoldGates(gs[..i + 1], pass) == Some(score)
  {
    assert gs[..i + 1][..i] == gs[..i];
  }

  /** Once a gate has stopped the score, later gates do not revive it. */
  lemma {:induction false} StoppedStaysStopped(gs: seq<Gate>, pass: Gate -> bool, k: nat)
    requires k <= |gs| && FoldGates(gs[..k], pass).None?
    ensures FoldGates(gs, pass).None?
    decreases |gs| - k
  {
    if k < |gs| {
      assert gs[..k + 1][..k] == gs[..k];
      StoppedStaysStopped(gs, pass, k + 1);
    } else {
      assert gs[..k] == gs;
    }
  }

  /** A gate that stops the score: a failing prerequisite or a passing block. */
  predicate Stops(g: Gate, pass: Gate -> bool)
  {
    (g.kind == Prereq && !pass(g)) || (g.kind == Block && pass(g))
  }

  /** The score is 0 exactly when some gate stops it, whatever boosts came before. */
  lemma {:induction false} StopIffStopping(gs: seq<Gate>, pass: Gate -> bool)
    ensures FoldGates(gs, pass).None? <==> exists i :: 0 <= i < |gs| && Stops(gs[i], pass)
    decreases |gs|
  {
    if gs != [] {
      var p := gs[..|gs| - 1];
      StopIffStopping(p, pass);
      if exists i :: 0 <= i < |p| && Stops(p[i], pass) {
        var i :| 0 <= i < |p| && Stops(p[i], pass);
        assert gs[i] == p[i];
      }
      if exists i :: 0 <= i < |gs| && Stops(gs[i], pass) {
        var i :| 0 <= i < |gs| && Stops(gs[i], pass);
        if i < |p| { assert p[i] == gs[i]; }
      }
    }
  }

  /**
   * A score that was not stopped lies in [0.5, 1]; a passing prerequisite
   * makes it at least 0.6.
   */
  lemma {:induction false} ScoreBounds(gs: seq<Gate>, pass: Gate -> bool)
    requires FoldGates(gs, pass).Some?
    ensures 0.5 <= FoldGates(gs, pass).value <= 1.0
    ensures (exists i :: 0 <= i < |gs| && gs[i].kind == Prereq) ==> FoldGates(gs, pass).value >= 0.6
    decreases |gs|
  {
    if gs != [] {
      var p := gs[..|gs| - 1];
      ScoreBounds(p, pass);
      if exists i :: 0 <= i < |gs| && gs[i].kind == Prereq {
        var i :| 0 <= i < |gs| && gs[i].kind == Prereq;
        if i < |p| { assert p[i] == gs[i]; }
      }
    }
  }

  /** The readiness is 0, or lies in [0.5, 1]; without gates it is 0.5. */
  lemma ReadinessRange(gates: Option<seq<Gate>>, pass: Gate -> bool)
    ensures Readiness(gates, pass) == 0.0 || 0.5 <= Readiness(gates, pass) <= 1.0
    ensures gates.None? || gates.value == [] ==> Readiness(gates, pass) == 0.5
  {
    if gates.Some? && |gates.value| > 0 && FoldGates(gates.value, pass).Some? {
      ScoreBounds(gates.value, pass);
    }
  }
}
