/** The environment (src/environment.ts): one flat map from names to values, with no
    enclosing environment. */
module Environment {
  import opened Wrappers
  import opened Grammar

  /** The constructor: no bindings. */
  const Empty: Env := Env(map[])

  /** `get`: the stored value, or `null` when the name is not bound. */
  function Get(env: Env, name: string): (r: Value)
    ensures name !in env.values ==> r == Nil
    ensures name in env.values ==> r == env.values[name]
  {
    if name in env.values then env.values[name] else Nil
  }

  /** `set`: binds `name`, inserting or overwriting. */
  function Set(env: Env, name: string, v: Value): (r: Env)
    ensures Get(r, name) == v
    ensures forall other :: other != name ==> Get(r, other) == Get(env, other)
    ensures r.values.Keys == env.values.Keys + {name}
  {
    Env(env.values[name := v])
  }

  /** `assign`: a `set` of a name that is already bound; any other name is an error. */
  function Assign(env: Env, name: string, v: Value): (r: Result<Env, string>)
    ensures r.Ok? <==> name in env.values
    ensures r.Ok? ==> r.value.values.Keys == env.values.Keys
    ensures r.Ok? ==> Get(r.value, name) == v
    ensures r.Ok? ==> forall other :: other != name ==> Get(r.value, other) == Get(env, other)
    ensures r.Err? ==> r.error == "Undefined variable: " + name
  {
    if name in env.values then Ok(Set(env, name, v))
    else Err("Undefined variable: " + name)
  }

  /** Two environments that answer every `get` alike and bind the same names are the same. */
  lemma Extensional(a: Env, b: Env)
    requires a.values.Keys == b.values.Keys
    requires forall name :: Get(a, name) == Get(b, name)
    ensures a == b
  {
    forall name | name in a.values
      ensures a.values[name] == b.values[name]
    {
      assert Get(a, name) == Get(b, name);
    }
  }

  /** A second `set` of the same name overwrites the first. */
  lemma SetSet(env: Env, name: string, v: Value, w: Value)
    ensures Set(Set(env, name, v), name, w) == Set(env, name, w)
  {
    Extensional(Set(Set(env, name, v), name, w), Set(env, name, w));
  }

  /** `set`s of different names commute. */
  lemma SetsCommute(env: Env, x: string, v: Value, y: string, w: Value)
    requires x != y
    ensures Set(Set(env, x, v), y, w) == Set(Set(env, y, w), x, v)
  {
    Extensional(Set(Set(env, x, v), y, w), Set(Set(env, y, w), x, v));
  }

  /** Setting a name to the value it already has changes nothing. */
  lemma SetSame(env: Env, name: string)
    requires name in env.values
    ensures Set(env, name, Get(env, name)) == env
  {
    Extensional(Set(env, name, Get(env, name)), env);
  }

  /** Every name can be read, bound or not; a fresh environment reads `null` everywhere and
      refuses every assignment. */
  lemma EmptyEnvironment(name: string, v: Value)
    ensures Get(Empty, name) == Nil
    ensures Assign(Empty, name, v) == Err("Undefined variable: " + name)
  {
  }
}
