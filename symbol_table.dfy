/**
 * The scope table of src/utils/symbolTable.js: a name -> symbol map with a
 * link to the enclosing scope. `Env` is the value view of a scope chain,
 * innermost scope first; `Resolve` is lookup on that view.
 */
module Scopes {
  import opened Wrappers
  import Syntax

  /** The extra fields `declare` spreads into a function's record. */
  datatype FuncInfo = FuncInfo(params: seq<Syntax.Param>, returnType: string)

  /** A symbol record `{name, type, ...data}`. */
  datatype Symbol = Symbol(name: string, symType: string, data: Option<FuncInfo>)

  type Scope = map<string, Symbol>

  /** A scope chain, current scope first, global scope last. */
  type Env = seq<Scope>

  /** Depth of the innermost scope of `env` that binds `name`. */
  ghost predicate BindsFirstAt(env: Env, name: string, k: nat)
  {
    k < |env| && name in env[k] && forall j :: 0 <= j < k ==> name !in env[j]
  }

  /** `lookup` on a chain: the innermost binding wins. */
  function Resolve(env: Env, name: string): (r: Option<Symbol>)
    ensures r.None? <==> forall i :: 0 <= i < |env| ==> name !in env[i]
    ensures r.Some? ==> exists k: nat :: BindsFirstAt(env, name, k) && r.value == env[k][name]
  {
    if env == [] then None
    else if name in env[0] then
      assert BindsFirstAt(env, name, 0);
      Some(env[0][name])
    else
      assert forall k: nat :: BindsFirstAt(env[1..], name, k) ==> BindsFirstAt(env, name, k + 1);
      Resolve(env[1..], name)
  }

  /** `declare` on a chain: only the current scope changes. */
  function DeclareIn(env: Env, name: string, symType: string, data: Option<FuncInfo>): (r: Env)
    requires env != []
    ensures |r| == |env| && r[1..] == env[1..]
    ensures r[0] == env[0][name := Symbol(name, symType, data)]
  {
    [env[0][name := Symbol(name, symType, data)]] + env[1..]
  }

  /** After declaring a name, looking it up in the same chain finds the new record. */
  lemma DeclareThenResolve(env: Env, name: string, symType: string, data: Option<FuncInfo>)
    requires env != []
    ensures Resolve(DeclareIn(env, name, symType, data), name) == Some(Symbol(name, symType, data))
  {
  }

  /** Declaring a name never disturbs how any other name resolves. */
  lemma {:induction false} DeclareKeepsOthers(env: Env, name: string, symType: string,
                                              data: Option<FuncInfo>, other: string)
    requires env != [] && other != name
    ensures Resolve(DeclareIn(env, name, symType, data), other) == Resolve(env, other)
  {
    var e' := DeclareIn(env, name, symType, data);
    assert e'[1..] == env[1..];
  }

  /** A binding in an inner scope hides every outer binding of the same name. */
  lemma {:induction false} InnerShadowsOuter(inner: Scope, outer: Env, name: string)
    requires name in inner
    ensures Resolve([inner] + outer, name) == Some(inner[name])
  {
  }

  /** A name absent from the current scope resolves as it does in the enclosing chain. */
  lemma {:induction false} ResolveSkipsScope(s: Scope, outer: Env, name: string)
    requires name !in s
    ensures Resolve([s] + outer, name) == Resolve(outer, name)
  {
    assert ([s] + outer)[1..] == outer;
  }

  /**
   * A scope object. `symbols` is the only state that changes; the parent link
   * and the scope name are fixed at construction. `Ancestors` is the set of
   * enclosing scope objects, which makes the parent chain finite and acyclic.
   */
  class SymbolTable {
    var symbols: Scope
    const parent: SymbolTable?
    const scopeName: string
    ghost const Ancestors: set<SymbolTable>

    ghost predicate Valid()
      decreases Ancestors
    {
      this !in Ancestors &&
      (parent == null ==> Ancestors == {}) &&
      (parent != null ==>
        parent in Ancestors && parent !in parent.Ancestors &&
        Ancestors == parent.Ancestors + {parent} && parent.Valid())
    }

    /** `new SymbolTable(parent = null, scopeName = 'global')`. */
    constructor (parent: SymbolTable? := null, scopeName: string := "global")
      requires parent != null ==> parent.Valid()
      ensures Valid() && this.parent == parent && this.scopeName == scopeName
      ensures symbols == map[]
      ensures Chain() == [map[]] + (if parent == null then [] else parent.Chain())
    {
      this.symbols := map[];
      this.parent := parent;
      this.scopeName := scopeName;
      this.Ancestors := if parent == null then {} else parent.Ancestors + {parent};
    }

    /** The chain of scope maps seen from this scope, this one first. */
    function Chain(): (env: Env)
      requires Valid()
      reads this, Ancestors
      decreases Ancestors
      ensures env != [] && env[0] == symbols
    {
      [symbols] + (if parent == null then [] else parent.Chain())
    }

    /** `declare(name, type, data)`: sets the entry in this scope, replacing any old one. */
    method Declare(name: string, symType: string, data: Option<FuncInfo> := None)
      requires Valid()
      modifies this
      ensures Valid()
      ensures symbols == old(symbols)[name := Symbol(name, symType, data)]
      ensures Chain() == DeclareIn(old(Chain()), name, symType, data)
      ensures parent != null ==> parent.Chain() == old(parent.Chain())
    {
      symbols := symbols[name := Symbol(name, symType, data)];
    }

    /** `lookup(name)`: this scope first, then the parent chain; `None` for `null`. */
    function Lookup(name: string): (r: Option<Symbol>)
      requires Valid()
      reads this, Ancestors
      decreases Ancestors
      ensures r == Resolve(Chain(), name)
    {
      if name in symbols then Some(symbols[name])
      else if parent != null then
        ResolveSkipsScope(symbols, parent.Chain(), name);
        parent.Lookup(name)
      else None
    }
  }
}
