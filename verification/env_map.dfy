/** The process environment as a map from variable names to values, the
    in-order writes `env::set_var` performs on it, and the "last write wins"
    reading of those writes. */
module EnvMap {
  import opened Results

  type Env = map<string, string>

  /** One `(key, value)` assignment. */
  type Pair = (string, string)

  /** The value of `key`, if the environment holds one. */
  function Get(env: Env, key: string): Option<string>
  {
    if key in env then Some(env[key]) else None
  }

  /** The keys the pairs name. */
  function KeysOf(pairs: seq<Pair>): set<string>
  {
    set i | 0 <= i < |pairs| :: pairs[i].0
  }

  /** Writes the pairs one after the other, each overwriting any earlier
      value of its key; nothing is ever removed. */
  function Assign(pairs: seq<Pair>, env: Env): (r: Env)
    ensures r.Keys == env.Keys + KeysOf(pairs)
    decreases |pairs|
  {
    if |pairs| == 0 then env
    else
      assert KeysOf(pairs) == {pairs[0].0} + KeysOf(pairs[1..]);
      Assign(pairs[1..], env[pairs[0].0 := pairs[0].1])
  }

  /** `i` is the position of the last pair that names `key`. */
  ghost predicate LastWriteAt(pairs: seq<Pair>, key: string, i: int)
  {
    && 0 <= i < |pairs|
    && pairs[i].0 == key
    && forall j :: i < j < |pairs| ==> pairs[j].0 != key
  }

  /** The value of the last pair that names `key`, found by searching from
      the end; `None` when no pair names it. */
  function LastValue(pairs: seq<Pair>, key: string): (r: Option<string>)
    ensures r.None? <==> key !in KeysOf(pairs)
    ensures r.Some? ==> exists i :: LastWriteAt(pairs, key, i) && pairs[i].1 == r.value
    decreases |pairs|
  {
    if |pairs| == 0 then None
    else if pairs[|pairs| - 1].0 == key then Some(pairs[|pairs| - 1].1)
    else
      var r := LastValue(pairs[..|pairs| - 1], key);
      assert KeysOf(pairs) == KeysOf(pairs[..|pairs| - 1]) + {pairs[|pairs| - 1].0};
      assert r.Some? ==> exists i :: LastWriteAt(pairs, key, i) && pairs[i].1 == r.value by {
        if r.Some? {
          var i :| LastWriteAt(pairs[..|pairs| - 1], key, i) && pairs[..|pairs| - 1][i].1 == r.value;
          assert LastWriteAt(pairs, key, i);
        }
      }
      r
  }

  /** Writing `a` then `b` is writing `a + b`. */
  lemma {:induction false} AssignAppend(a: seq<Pair>, b: seq<Pair>, env: Env)
    ensures Assign(a + b, env) == Assign(b, Assign(a, env))
    decreases |a|
  {
    if |a| > 0 {
      assert (a + b)[1..] == a[1..] + b;
      AssignAppend(a[1..], b, env[a[0].0 := a[0].1]);
    } else {
      assert a + b == b;
    }
  }

  /** The last pair naming a key, in `a + b`, is found in `b` if `b` names
      the key and in `a` otherwise. */
  lemma {:induction false} LastValueAppend(a: seq<Pair>, b: seq<Pair>, key: string)
    ensures LastValue(a + b, key) == OrElse(LastValue(b, key), LastValue(a, key))
    decreases |b|
  {
    if |b| == 0 {
      assert a + b == a;
    } else {
      assert (a + b)[..|a + b| - 1] == a + b[..|b| - 1];
      LastValueAppend(a, b[..|b| - 1], key);
    }
  }

  /** Override law: after the writes, a key one of the pairs names holds the
      value of the last such pair; any other key keeps its prior value, or
      stays absent. */
  lemma {:induction false} AssignLastWriteWins(pairs: seq<Pair>, env: Env, key: string)
    ensures Get(Assign(pairs, env), key) == OrElse(LastValue(pairs, key), Get(env, key))
    decreases |pairs|
  {
    if |pairs| > 0 {
      var front := pairs[..|pairs| - 1];
      var last := pairs[|pairs| - 1];
      assert pairs == front + [last];
      AssignAppend(front, [last], env);
      AssignLastWriteWins(front, env, key);
    }
  }

  /** No write removes a key or touches a key it does not name. */
  lemma AssignKeepsOtherKeys(pairs: seq<Pair>, env: Env, key: string)
    requires key !in KeysOf(pairs)
    ensures Get(Assign(pairs, env), key) == Get(env, key)
  {
    AssignLastWriteWins(pairs, env, key);
  }
}
