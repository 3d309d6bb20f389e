/**
 * `McCmdNode.interpret` of msl/ast.py: every `$(name)` in a Minecraft command is
 * replaced by the value of the compile-time variable `name` (or by `name` itself
 * when no such variable exists), and the replacement is repeated on the result
 * until a pass finds nothing, for at most `MAX_REC_LIMIT` passes.
 */
module Substitution {
  import opened Results
  import opened Strings
  import opened Values
  import opened Scopes

  const MaxRecLimit := 10

  predicate IsIdentStart(c: char) {
    'a' <= c <= 'z' || 'A' <= c <= 'Z' || c == '_'
  }

  predicate IsIdentChar(c: char) {
    IsIdentStart(c) || '0' <= c <= '9'
  }

  /** What `[_a-zA-Z][_a-zA-Z0-9]{0,31}` matches as a whole. */
  predicate IsIdentifier(id: string) {
    1 <= |id| <= 32 && IsIdentStart(id[0]) && forall i :: 0 <= i < |id| ==> IsIdentChar(id[i])
  }

  /** The length of the run of identifier characters at the front of `s`. */
  function IdentRun(s: string): (n: nat)
    ensures n <= |s|
  {
    if |s| > 0 && IsIdentChar(s[0]) then 1 + IdentRun(s[1..]) else 0
  }

  lemma {:induction false} IdentRunSpec(s: string)
    ensures forall i :: 0 <= i < IdentRun(s) ==> IsIdentChar(s[i])
    ensures IdentRun(s) < |s| ==> !IsIdentChar(s[IdentRun(s)])
  {
    if |s| > 0 && IsIdentChar(s[0]) {
      IdentRunSpec(s[1..]);
    }
  }

  /**
   * The pattern `\$\([_a-zA-Z][_a-zA-Z0-9]{0,31}\)` tried at the front of `s`,
   * scanned by hand: the identifier between the parentheses on a match. Since
   * `)` is not an identifier character, the greedy repetition matches exactly
   * when the whole run of identifier characters is at most 32 long and a `)`
   * follows it.
   */
  function MatchAt(s: string): Option<string> {
    if |s| >= 3 && s[0] == '$' && s[1] == '(' && IsIdentStart(s[2]) then
      var n := IdentRun(s[2..]);
      if n <= 32 && 2 + n < |s| && s[2 + n] == ')' then Some(s[2..2 + n]) else None
    else None
  }

  /** The scanner finds `$(id)` exactly when the text starts with it for a valid identifier. */
  lemma MatchAtIff(s: string, id: string)
    ensures MatchAt(s) == Some(id) <==> IsIdentifier(id) && StartsWith(s, "$(" + id + ")")
  {
    if IsIdentifier(id) && StartsWith(s, "$(" + id + ")") {
      MatchFound(s, id);
    }
    if MatchAt(s) == Some(id) {
      IdentRunSpec(s[2..]);
    }
  }

  lemma MatchFound(s: string, id: string)
    requires IsIdentifier(id) && StartsWith(s, "$(" + id + ")")
    ensures MatchAt(s) == Some(id)
  {
    var pattern := "$(" + id + ")";
    assert s[..|pattern|] == pattern;
    var u := s[2..];
    assert u[..|id|] == id by {
      forall i | 0 <= i < |id| ensures u[i] == id[i] { assert u[i] == pattern[i + 2]; }
    }
    assert u[|id|] == ')' by { assert u[|id|] == pattern[|id| + 2]; }
    IdentRunStops(u, |id|);
    assert s[0] == pattern[0] == '$' && s[1] == pattern[1] == '(';
    assert s[2] == u[0] == id[0];
    assert s[2 + |id|] == u[|id|];
    assert s[2..2 + |id|] == u[..|id|];
  }

  lemma IdentRunStops(s: string, n: nat)
    requires n < |s| && !IsIdentChar(s[n])
    requires forall i :: 0 <= i < n ==> IsIdentChar(s[i])
    ensures IdentRun(s) == n
  {
    if n > 0 {
      IdentRunStops(s[1..], n - 1);
    }
  }

  /** Some `$(id)` occurs in `s`. */
  predicate HasPlaceholder(s: string)
    decreases |s|
  {
    |s| > 0 && (MatchAt(s).Some? || HasPlaceholder(s[1..]))
  }

  /** Text without a `$` holds no placeholder. */
  lemma {:induction false} NoDollarNoPlaceholder(s: string)
    requires '$' !in s
    ensures !HasPlaceholder(s)
    decreases |s|
  {
    if |s| > 0 {
      assert s[0] != '$';
      assert '$' !in s[1..] by {
        forall k | 0 <= k < |s[1..]| ensures s[1..][k] != '$' { assert s[1..][k] == s[k + 1]; }
      }
      NoDollarNoPlaceholder(s[1..]);
    }
  }

  /** `replace`: the variable's text when `name` is a variable, `name` itself otherwise. */
  function Replacement(name: string, ctx: Context): string {
    match GetVariable(ctx, name)
    case Some(v) => Show(v)
    case None => name
  }

  /**
   * One `re.sub` pass: every match, left to right and without overlap, is
   * replaced; the flag tells whether any match was found (`self.loop`).
   */
  function Pass(s: string, ctx: Context): (r: (string, bool))
    ensures r.1 <==> HasPlaceholder(s)
    ensures !r.1 ==> r.0 == s
    decreases |s|
  {
    if |s| == 0 then ("", false)
    else
      match MatchAt(s)
      case Some(id) =>
        var rest := Pass(s[|id| + 3..], ctx);
        (Replacement(id, ctx) + rest.0, true)
      case None =>
        var rest := Pass(s[1..], ctx);
        assert s == [s[0]] + s[1..];
        ([s[0]] + rest.0, rest.1)
  }

  /** A pass copies a leading character other than `$`. */
  lemma PassPlainStep(s: string, ctx: Context)
    requires |s| > 0 && s[0] != '$'
    ensures Pass(s, ctx) == ([s[0]] + Pass(s[1..], ctx).0, Pass(s[1..], ctx).1)
  {
    assert MatchAt(s).None?;
  }

  /** A pass over `p + t` copies `p` and then does what it does on `t`. */
  predicate PrefixKept(p: string, t: string, ctx: Context) {
    Pass(p + t, ctx) == (p + Pass(t, ctx).0, Pass(t, ctx).1)
  }

  /** Text without a `$` passes through a pass untouched. */
  lemma {:induction false} PassKeepsPlainPrefix(p: string, t: string, ctx: Context)
    requires '$' !in p
    ensures PrefixKept(p, t, ctx)
    decreases |p|
  {
    if |p| > 0 {
      PassKeepsPlainPrefix(p[1..], t, ctx);
      PrefixStep(p, t, ctx);
    } else {
      assert p + t == t;
      assert p + Pass(t, ctx).0 == Pass(t, ctx).0;
    }
  }

  lemma PrefixStep(p: string, t: string, ctx: Context)
    requires |p| > 0 && '$' !in p
    requires PrefixKept(p[1..], t, ctx)
    ensures PrefixKept(p, t, ctx)
  {
    var s := p + t;
    var tail := Pass(t, ctx);
    assert s[0] == p[0] && s[1..] == p[1..] + t;
    assert Pass(s[1..], ctx) == (p[1..] + tail.0, tail.1);
    PassPlainStep(s, ctx);
    assert Pass(s, ctx) == ([p[0]] + (p[1..] + tail.0), tail.1);
    assert [p[0]] + (p[1..] + tail.0) == p + tail.0;
  }

  /** The text after `k` passes. */
  function Iterate(s: string, ctx: Context, k: nat): string {
    if k == 0 then s else Pass(Iterate(s, ctx, k - 1), ctx).0
  }

  /**
   * The `while self.loop and self.ctr < MAX_REC_LIMIT` loop, `ctr` passes having
   * been done, the last of them having found a match.
   */
  function Passes(s: string, ctx: Context, ctr: nat): (r: Result<string>)
    requires ctr < MaxRecLimit
    ensures r.Ok? ==> !HasPlaceholder(r.value)
    ensures r.Err? ==> r.error == MaxRecursion
    decreases MaxRecLimit - ctr
  {
    var next := Pass(s, ctx);
    if next.1 && ctr + 1 < MaxRecLimit then Passes(next.0, ctx, ctr + 1)
    else if ctr + 1 >= MaxRecLimit then Err(MaxRecursion)
    else Ok(next.0)
  }

  /**
   * `McCmdNode.interpret`, with `replace` looking the name up through
   * `getVariable`. On success no placeholder is left, and a command without
   * placeholders comes back unchanged after its first pass.
   */
  function Substitute(text: string, ctx: Context): (r: Result<string>)
    ensures r.Ok? ==> !HasPlaceholder(r.value)
    ensures r.Err? ==> r.error == MaxRecursion
    ensures !HasPlaceholder(text) ==> r == Ok(text)
  {
    Passes(text, ctx, 0)
  }

  /** Whether each of the first nine passes finds a placeholder. */
  function Findings(text: string, ctx: Context): seq<bool> {
    seq(MaxRecLimit - 1, k requires 0 <= k => HasPlaceholder(Iterate(text, ctx, k)))
  }

  /** Every flag from index `lo` on is set. */
  predicate AllFrom(flags: seq<bool>, lo: nat)
    decreases |flags| - lo
  {
    lo >= |flags| || (flags[lo] && AllFrom(flags, lo + 1))
  }

  lemma {:induction false} AllFromIff(flags: seq<bool>, lo: nat)
    ensures AllFrom(flags, lo) <==> forall k :: lo <= k < |flags| ==> flags[k]
    decreases |flags| - lo
  {
    if lo < |flags| {
      AllFromIff(flags, lo + 1);
    }
  }

  lemma {:induction false} PassesFromIterate(text: string, ctx: Context, ctr: nat)
    requires ctr < MaxRecLimit
    ensures Passes(Iterate(text, ctx, ctr), ctx, ctr).Err? <==> AllFrom(Findings(text, ctx), ctr)
    decreases MaxRecLimit - ctr
  {
    var s := Iterate(text, ctx, ctr);
    var next := Pass(s, ctx);
    assert Iterate(text, ctx, ctr + 1) == next.0;
    if next.1 && ctr + 1 < MaxRecLimit {
      PassesFromIterate(text, ctx, ctr + 1);
    }
  }

  /** The number of the first pass, from `lo` on, that finds nothing (9 when none does). */
  function FirstClean(text: string, ctx: Context, lo: nat): (k: nat)
    requires lo <= MaxRecLimit - 1
    ensures lo <= k <= MaxRecLimit - 1
    ensures k < MaxRecLimit - 1 ==> !HasPlaceholder(Iterate(text, ctx, k))
    decreases MaxRecLimit - lo
  {
    if lo == MaxRecLimit - 1 || !HasPlaceholder(Iterate(text, ctx, lo)) then lo
    else FirstClean(text, ctx, lo + 1)
  }

  /** The value the loop ends with, when it succeeds from round `ctr`. */
  predicate ValueFrom(text: string, ctx: Context, ctr: nat)
    requires ctr < MaxRecLimit
  {
    Passes(Iterate(text, ctx, ctr), ctx, ctr).Ok? ==>
      FirstClean(text, ctx, ctr) < MaxRecLimit - 1
      && Passes(Iterate(text, ctx, ctr), ctx, ctr).value == Iterate(text, ctx, FirstClean(text, ctx, ctr))
  }

  lemma {:induction false} PassesValue(text: string, ctx: Context, ctr: nat)
    requires ctr < MaxRecLimit
    ensures ValueFrom(text, ctx, ctr)
    decreases MaxRecLimit - ctr
  {
    if ctr + 1 < MaxRecLimit {
      PassesValue(text, ctx, ctr + 1);
    }
    PassesValueStep(text, ctx, ctr);
  }

  /** One round of the loop: it either stops here or has the value of the next round. */
  lemma PassesValueStep(text: string, ctx: Context, ctr: nat)
    requires ctr < MaxRecLimit
    requires ctr + 1 < MaxRecLimit ==> ValueFrom(text, ctx, ctr + 1)
    ensures ValueFrom(text, ctx, ctr)
  {
    if ctr + 1 < MaxRecLimit {
      if HasPlaceholder(Iterate(text, ctx, ctr)) {
        assert Passes(Iterate(text, ctx, ctr), ctx, ctr) == Passes(Iterate(text, ctx, ctr + 1), ctx, ctr + 1);
        assert FirstClean(text, ctx, ctr) == FirstClean(text, ctx, ctr + 1);
      } else {
        assert FirstClean(text, ctx, ctr) == ctr;
      }
    }
  }

  /**
   * The pass limit: substitution fails exactly when each of the first nine
   * passes replaced something (the tenth pass then runs and `ctr` reaches 10).
   */
  lemma SubstituteFailsIff(text: string, ctx: Context)
    ensures Substitute(text, ctx).Err? <==> forall k :: 0 <= k < MaxRecLimit - 1 ==> Findings(text, ctx)[k]
  {
    assert Iterate(text, ctx, 0) == text;
    PassesFromIterate(text, ctx, 0);
    AllFromIff(Findings(text, ctx), 0);
  }

  /** On success the result is the text before the first pass that found nothing. */
  lemma SubstituteValue(text: string, ctx: Context)
    ensures Substitute(text, ctx).Ok? ==>
              FirstClean(text, ctx, 0) < MaxRecLimit - 1
              && Substitute(text, ctx).value == Iterate(text, ctx, FirstClean(text, ctx, 0))
  {
    assert Iterate(text, ctx, 0) == text;
    PassesValue(text, ctx, 0);
  }

  /**
   * `McCmdNode.replace` as written calls `context.get_var`, which `Context`
   * does not define: the first match raises `AttributeError`. Without a match
   * the loop stops after one pass and the text is unchanged.
   */
  function SubstituteAsWritten(text: string, ctx: Context): (r: Result<string>)
    ensures r.Ok? <==> !HasPlaceholder(text)
    ensures r.Ok? ==> r.value == text
    ensures r.Err? ==> r.error == AttributeFault("get_var")
    decreases |text|
  {
    if |text| == 0 then Ok("")
    else
      if MatchAt(text).Some? then Err(AttributeFault("get_var"))
      else
        var rest :- SubstituteAsWritten(text[1..], ctx);
        assert text == [text[0]] + text[1..];
        Ok([text[0]] + rest)
  }

  /**
   * The discrepancy: `say $(i)` with `i` bound to 3 crashes as written, while
   * the lookup through `getVariable` gives `say 3`.
   */
  lemma GetVarCrashes()
    ensures SubstituteAsWritten("say $(i)", SetVariable(Empty, "i", VInt(3))).Err?
    ensures Substitute("say $(i)", SetVariable(Empty, "i", VInt(3))) == Ok("say 3")
  {
    var ctx := SetVariable(Empty, "i", VInt(3));
    assert GetVariable(ctx, "i") == Some(VInt(3));
    assert IsIdentifier("i");
    assert "say $(i)" == "say " + ("$(" + "i" + ")");
    CrashesOn("say ", "i", VInt(3), ctx);
    assert "say " + Show(VInt(3)) == "say 3";
  }

  /**
   * A command holding one placeholder of a bound variable, after text with no
   * `$`, crashes as written; through `getVariable` it becomes that text followed
   * by the value, when the value holds no `$` of its own.
   */
  lemma CrashesOn(p: string, id: string, v: Value, ctx: Context)
    requires '$' !in p && IsIdentifier(id)
    requires GetVariable(ctx, id) == Some(v) && '$' !in Show(v)
    ensures SubstituteAsWritten(p + ("$(" + id + ")"), ctx).Err?
    ensures Substitute(p + ("$(" + id + ")"), ctx) == Ok(p + Show(v))
  {
    SayPass(ctx, p, id);
    NoDollarNoPlaceholder(p + Show(v));
    OnePassSettles(p + ("$(" + id + ")"), ctx);
  }

  /** A text whose first pass leaves no placeholder is the result of that pass. */
  lemma OnePassSettles(text: string, ctx: Context)
    requires Pass(text, ctx).1 && !HasPlaceholder(Pass(text, ctx).0)
    ensures Substitute(text, ctx) == Ok(Pass(text, ctx).0)
  {
    var next := Pass(text, ctx).0;
    assert Substitute(text, ctx) == Passes(next, ctx, 1);
  }

  /** One pass over plain text followed by one placeholder replaces just the placeholder. */
  lemma SayPass(ctx: Context, p: string, id: string)
    requires '$' !in p && IsIdentifier(id)
    ensures Pass(p + ("$(" + id + ")"), ctx) == (p + Replacement(id, ctx), true)
  {
    var t := "$(" + id + ")";
    PlaceholderPass(ctx, id);
    PassKeepsPlainPrefix(p, t, ctx);
    assert PrefixKept(p, t, ctx);
  }

  /** One pass over a lone placeholder gives its replacement. */
  lemma PlaceholderPass(ctx: Context, id: string)
    requires IsIdentifier(id)
    ensures Pass("$(" + id + ")", ctx) == (Replacement(id, ctx), true)
  {
    var t := "$(" + id + ")";
    MatchAtIff(t, id);
    var rest := t[|id| + 3..];
    assert rest == [];
    assert Pass(rest, ctx) == ([], false);
    PassMatchStep(t, ctx, id);
    assert Replacement(id, ctx) + Pass(rest, ctx).0 == Replacement(id, ctx);
  }

  /** A pass replaces a leading match and carries on after it. */
  lemma PassMatchStep(s: string, ctx: Context, id: string)
    requires MatchAt(s) == Some(id)
    ensures |id| + 3 <= |s|
    ensures Pass(s, ctx) == (Replacement(id, ctx) + Pass(s[|id| + 3..], ctx).0, true)
  {
  }

  /** A variable whose text names itself never settles, so the pass limit is hit. */
  lemma SelfReferenceFails(ctx: Context)
    requires GetVariable(ctx, "x") == Some(VStr("$(x)"))
    ensures Substitute("$(x)", ctx) == Err(MaxRecursion)
  {
    assert IsIdentifier("x");
    assert "$(x)" == "$(" + "x" + ")";
    SelfReferenceLoops(ctx, "x");
  }

  /** Any variable bound to its own placeholder makes substitution hit the pass limit. */
  lemma SelfReferenceLoops(ctx: Context, id: string)
    requires IsIdentifier(id)
    requires GetVariable(ctx, id) == Some(VStr("$(" + id + ")"))
    ensures Substitute("$(" + id + ")", ctx) == Err(MaxRecursion)
  {
    var t := "$(" + id + ")";
    SelfPass(ctx, id);
    forall k: nat | k < MaxRecLimit - 1
      ensures Findings(t, ctx)[k]
    {
      IterateFixed(t, ctx, k);
    }
    SubstituteFailsIff(t, ctx);
  }

  /** A placeholder of a variable bound to that same placeholder is a fixed point of a pass that finds something. */
  lemma SelfPass(ctx: Context, id: string)
    requires IsIdentifier(id)
    requires GetVariable(ctx, id) == Some(VStr("$(" + id + ")"))
    ensures Pass("$(" + id + ")", ctx) == ("$(" + id + ")", true)
  {
    PlaceholderPass(ctx, id);
  }

  lemma {:induction false} IterateFixed(s: string, ctx: Context, k: nat)
    requires Pass(s, ctx).0 == s
    ensures Iterate(s, ctx, k) == s
  {
    if k > 0 {
      IterateFixed(s, ctx, k - 1);
      assert Iterate(s, ctx, k) == Pass(Iterate(s, ctx, k - 1), ctx).0;
    }
  }
}
