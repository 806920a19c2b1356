/** The variable bindings of environment.py: one flat scope, seeded with
    the four prototypes. */
module Environment {
  import opened Wrappers
  import opened Objects
  import opened Builtins

  type Env = map<string, Value>

  /** A fresh environment binds exactly the four prototype names. */
  function InitialEnv(): (e: Env)
    ensures e.Keys == {"Object", "Number", "Boolean", "String"}
    ensures forall x | x in e :: e[x].VObj? && e[x].id in {ObjectId, NumberId, BooleanId, StringId}
  {
    map["Object" := VObj(ObjectId), "Number" := VObj(NumberId),
        "Boolean" := VObj(BooleanId), "String" := VObj(StringId)]
  }

  /** `get`: the bound value, or `NameError` for an unbound name. */
  function Get(e: Env, name: string): (r: Result<Value, Fault>)
    ensures r.Ok? <==> name in e
    ensures r.Ok? ==> r.value == e[name]
    ensures r.Err? ==> r.error == NameError(name)
  {
    if name !in e then Err(NameError(name)) else Ok(e[name])
  }

  /** `set`: binds or rebinds one name. */
  function Set(e: Env, name: string, v: Value): (r: Env)
    ensures r.Keys == e.Keys + {name} && r[name] == v
    ensures forall x | x in e && x != name :: r[x] == e[x]
  {
    e[name := v]
  }

  /** `has` */
  function Has(e: Env, name: string): bool
  {
    name in e
  }

  /** Reading a name just set gives the value set. */
  lemma GetAfterSet(e: Env, name: string, v: Value)
    ensures Get(Set(e, name, v), name) == Ok(v)
  {
  }

  /** Setting one name leaves every other name's reading unchanged. */
  lemma GetAfterSetOther(e: Env, name: string, v: Value, other: string)
    requires other != name
    ensures Get(Set(e, name, v), other) == Get(e, other)
    ensures Has(Set(e, name, v), other) == Has(e, other)
  {
  }

  /** `has` answers exactly when `get` does not raise. */
  lemma HasIffGet(e: Env, name: string)
    ensures Has(e, name) <==> Get(e, name).Ok?
  {
  }

  /** The four prototype names read as the prototypes. */
  lemma InitialBindings()
    ensures Get(InitialEnv(), "Object") == Ok(VObj(ObjectId))
    ensures Get(InitialEnv(), "Number") == Ok(VObj(NumberId))
    ensures Get(InitialEnv(), "Boolean") == Ok(VObj(BooleanId))
    ensures Get(InitialEnv(), "String") == Ok(VObj(StringId))
  {
  }
}
