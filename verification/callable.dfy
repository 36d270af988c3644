/** Callables (src/callable.ts): arity, binding arguments to parameters, and what a call
    yields for each way its body can finish. The statement executor the body runs on is not
    part of this model: a call takes it as a parameter that reports how the body finished. */
module Callables {
  import opened Wrappers
  import opened Tokens
  import opened Grammar
  import opened Environment

  /** How running a body ended: normally, by a `Return` signal carrying a value, or by any
      other error. */
  datatype BodyOutcome = Completed | Returned(value: Value) | Raised

  /** `arity`: the number of declared parameters; the clock takes none. */
  function Arity(c: Callable): (r: nat)
    ensures c.LoxFunction? ==> r == |c.params|
    ensures c.Clock? ==> r == 0
  {
    match c
    case LoxFunction(_, params, _, _) => |params|
    case Clock => 0
  }

  /** `args[i]`: past the end it is `undefined`, which the environment reads back as `null`. */
  function ArgAt(args: seq<Value>, i: nat): Value {
    if i < |args| then args[i] else Nil
  }

  /** The parameter at `i` binds a name no later parameter binds again. */
  predicate LastBinding(params: seq<Token>, i: nat)
    requires i < |params|
  {
    NameOf(params[i]).Some? && forall j :: i < j < |params| ==> NameOf(params[j]) != NameOf(params[i])
  }

  /** `env` is what binding `args` to `params` must give: exactly the parameters' names are
      bound, each to the argument at the last position that names it. */
  ghost predicate Binds(params: seq<Token>, args: seq<Value>, env: Env) {
    && (forall name :: name in env.values <==> exists i :: 0 <= i < |params| && NameOf(params[i]) == Some(name))
    && (forall i :: 0 <= i < |params| && LastBinding(params, i) ==> Get(env, NameOf(params[i]).value) == ArgAt(args, i))
  }

  /** One step of the `forEach`: the parameter is set when it has a name. */
  function BindOne(env: Env, param: Token, arg: Value): Env {
    match NameOf(param)
    case None => env
    case Some(name) => Set(env, name, arg)
  }

  /** The `forEach` of `call`: each parameter with a non-empty name is set, in order, to the
      argument at its position, in an environment that starts empty (the constructor takes
      no enclosing environment, so the closure is not consulted). */
  function BindParams(params: seq<Token>, args: seq<Value>): (r: Env)
    ensures Binds(params, args, r)
    decreases |params|
  {
    if |params| == 0 then Empty
    else
      var init := BindParams(params[..|params| - 1], args);
      BindStep(params, args, init);
      BindOne(init, params[|params| - 1], ArgAt(args, |params| - 1))
  }

  /** Binding one more parameter keeps `Binds`. */
  lemma BindStep(params: seq<Token>, args: seq<Value>, init: Env)
    requires |params| > 0 && Binds(params[..|params| - 1], args, init)
    ensures Binds(params, args, BindOne(init, params[|params| - 1], ArgAt(args, |params| - 1)))
  {
    var n := |params| - 1;
    var prefix := params[..n];
    var r := BindOne(init, params[n], ArgAt(args, n));
    forall name
      ensures name in r.values <==> exists i :: 0 <= i < |params| && NameOf(params[i]) == Some(name)
    {
      if name in r.values && NameOf(params[n]) != Some(name) {
        assert name in init.values;
        var i :| 0 <= i < |prefix| && NameOf(prefix[i]) == Some(name);
        assert params[i] == prefix[i];
      }
      if exists i :: 0 <= i < |params| && NameOf(params[i]) == Some(name) {
        var i :| 0 <= i < |params| && NameOf(params[i]) == Some(name);
        if i < n {
          assert prefix[i] == params[i];
        }
      }
    }
    forall i | 0 <= i < |params| && LastBinding(params, i)
      ensures Get(r, NameOf(params[i]).value) == ArgAt(args, i)
    {
      if i < n {
        assert prefix[i] == params[i];
        assert NameOf(params[n]) != NameOf(params[i]);
        assert LastBinding(prefix, i) by {
          forall j | i < j < |prefix|
            ensures NameOf(prefix[j]) != NameOf(prefix[i])
          {
            assert prefix[j] == params[j];
          }
        }
      }
    }
  }

  /** `call` of a user function. `run` stands for executing the body's statements in the
      given environment; a `Return` becomes the call's value, and both normal completion
      and any other error give `null`. */
  function Call(f: Callable, args: seq<Value>, run: (seq<Stmt>, Env) -> BodyOutcome): (r: Value)
    requires f.LoxFunction?
    ensures run(f.body, BindParams(f.params, args)).Returned? ==>
              r == run(f.body, BindParams(f.params, args)).value
    ensures !run(f.body, BindParams(f.params, args)).Returned? ==> r == Nil
  {
    match run(f.body, BindParams(f.params, args))
    case Returned(v) => v
    case _ => Nil
  }

  /** `call` does not check the argument count: arguments past the last parameter are
      ignored. */
  lemma {:induction false} ExtraArgumentsIgnored(params: seq<Token>, args: seq<Value>, extra: seq<Value>)
    requires |args| >= |params|
    ensures BindParams(params, args + extra) == BindParams(params, args)
    decreases |params|
  {
    if |params| > 0 {
      var n := |params| - 1;
      ExtraArgumentsIgnored(params[..n], args, extra);
      assert ArgAt(args + extra, n) == ArgAt(args, n);
    }
  }

  /** Parameters with distinct, non-empty names are each bound to their own argument, and a
      parameter without an argument reads as `null`. */
  lemma DistinctParameters(params: seq<Token>, args: seq<Value>)
    requires forall i :: 0 <= i < |params| ==> NameOf(params[i]).Some?
    requires forall i, j :: 0 <= i < j < |params| ==> NameOf(params[i]) != NameOf(params[j])
    ensures forall i :: 0 <= i < |params| ==> Get(BindParams(params, args), NameOf(params[i]).value) == ArgAt(args, i)
    ensures forall i :: |args| <= i < |params| ==> Get(BindParams(params, args), NameOf(params[i]).value) == Nil
  {
    forall i | 0 <= i < |params|
      ensures LastBinding(params, i)
    {
    }
  }

  /** The environment the body runs in binds the parameters and nothing else: a name that
      only the closure binds reads as `null`. */
  lemma ClosureNotVisible(f: Callable, args: seq<Value>, name: string)
    requires f.LoxFunction?
    requires forall i :: 0 <= i < |f.params| ==> NameOf(f.params[i]) != Some(name)
    ensures name !in BindParams(f.params, args).values
    ensures Get(BindParams(f.params, args), name) == Nil
  {
  }

  /** A later parameter with the same name wins: `func f(a, a)` called with 1 and 2 binds
      `a` to 2. */
  lemma RepeatedParameterLastWins(a: Token)
    requires NameOf(a) == Some("a")
    ensures Get(BindParams([a, a], [Num(1.0), Num(2.0)]), "a") == Num(2.0)
  {
    assert LastBinding([a, a], 1);
  }

  /** A parameter token without a name is skipped, though it still takes its argument's
      position. */
  lemma UnnamedParameterSkipped(blank: Token, b: Token)
    requires NameOf(blank).None? && NameOf(b) == Some("b")
    ensures BindParams([blank, b], [Num(1.0), Num(2.0)]).values == map["b" := Num(2.0)]
  {
    var r := BindParams([blank, b], [Num(1.0), Num(2.0)]);
    assert LastBinding([blank, b], 1);
    assert r.values.Keys == {"b"} by {
      forall name ensures name in r.values <==> name == "b" {
        if name in r.values {
          var i :| 0 <= i < 2 && NameOf([blank, b][i]) == Some(name);
        }
      }
    }
  }
}
