/**
 * `Context` of msl/ast.py: the compile-time variables, the declared scores and
 * an optional parent context. Every lookup tries the current context first and
 * then falls back along the parent chain; every write goes to the current context.
 */
module Scopes {
  import opened Results
  import opened Values

  /** A declared score: the objective (`scoreboard`) and the player (`scoreboard_name`). */
  datatype Score = Score(objective: string, player: string)

  datatype Context = Context(
    variables: map<string, Value>,
    scores: map<string, Score>,
    parent: Option<Context>)

  const Empty := Context(map[], map[], None)

  /** `Context.isVariable`. */
  predicate IsVariable(c: Context, name: string)
    decreases c
  {
    name in c.variables || (c.parent.Some? && IsVariable(c.parent.value, name))
  }

  /** `Context.getVariable`: `None` for a name unknown everywhere. */
  function GetVariable(c: Context, name: string): (r: Option<Value>)
    ensures r.Some? <==> IsVariable(c, name)
    decreases c
  {
    if name in c.variables then Some(c.variables[name])
    else if c.parent.Some? then GetVariable(c.parent.value, name)
    else None
  }

  /** `Context.isScore`. */
  predicate IsScore(c: Context, name: string)
    decreases c
  {
    name in c.scores || (c.parent.Some? && IsScore(c.parent.value, name))
  }

  /** `Context.getScore`: `None` stands for Python's `(None, None)`. */
  function GetScore(c: Context, name: string): (r: Option<Score>)
    ensures r.Some? <==> IsScore(c, name)
    decreases c
  {
    if name in c.scores then Some(c.scores[name])
    else if c.parent.Some? then GetScore(c.parent.value, name)
    else None
  }

  /** `context.variables[name] = v`: only the current context changes. */
  function SetVariable(c: Context, name: string, v: Value): Context {
    c.(variables := c.variables[name := v])
  }

  /** `context.scores[name] = [objective, player]`. */
  function AddScore(c: Context, name: string, s: Score): Context {
    c.(scores := c.scores[name := s])
  }

  /**
   * The variables visible from `c`, as one map: each context's own bindings
   * override those of its ancestors.
   */
  function VisibleVariables(c: Context): map<string, Value>
    decreases c
  {
    (if c.parent.Some? then VisibleVariables(c.parent.value) else map[]) + c.variables
  }

  function VisibleScores(c: Context): map<string, Score>
    decreases c
  {
    (if c.parent.Some? then VisibleScores(c.parent.value) else map[]) + c.scores
  }

  /**
   * The chain walk of `isVariable`/`getVariable` agrees with the flattened view:
   * the nearest binding wins, and a name bound nowhere is unknown.
   */
  lemma {:induction false} VariableLookupIsNearest(c: Context, name: string)
    ensures IsVariable(c, name) <==> name in VisibleVariables(c)
    ensures GetVariable(c, name) == if name in VisibleVariables(c) then Some(VisibleVariables(c)[name]) else None
    decreases c
  {
    if c.parent.Some? {
      VariableLookupIsNearest(c.parent.value, name);
    }
  }

  /** The same for `isScore`/`getScore`. */
  lemma {:induction false} ScoreLookupIsNearest(c: Context, name: string)
    ensures IsScore(c, name) <==> name in VisibleScores(c)
    ensures GetScore(c, name) == if name in VisibleScores(c) then Some(VisibleScores(c)[name]) else None
    decreases c
  {
    if c.parent.Some? {
      ScoreLookupIsNearest(c.parent.value, name);
    }
  }

  /** Writing a variable makes it visible with the new value and changes nothing else. */
  lemma SetVariableFrame(c: Context, name: string, v: Value, other: string)
    ensures GetVariable(SetVariable(c, name, v), name) == Some(v)
    ensures other != name ==> GetVariable(SetVariable(c, name, v), other) == GetVariable(c, other)
    ensures GetScore(SetVariable(c, name, v), other) == GetScore(c, other)
  {
    var c' := SetVariable(c, name, v);
    assert c'.parent == c.parent && c'.scores == c.scores;
  }

  /** Recording a score makes it visible and changes nothing else. */
  lemma AddScoreFrame(c: Context, name: string, s: Score, other: string)
    ensures GetScore(AddScore(c, name, s), name) == Some(s)
    ensures other != name ==> GetScore(AddScore(c, name, s), other) == GetScore(c, other)
    ensures GetVariable(AddScore(c, name, s), other) == GetVariable(c, other)
  {
    var c' := AddScore(c, name, s);
    assert c'.parent == c.parent && c'.variables == c.variables;
  }
}
