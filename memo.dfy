/** The lazy getters of Work, Chapter and User share one shape: return the
    cached field if there is one, refuse when the entity is not loaded,
    otherwise compute the value and (for most fields) store it. */
module Memo {
  import opened Prelude
  import opened Js

  /** Whether the cache answers for `key`.  Work and Chapter test
      `data[key] !== undefined`; User tests `data[key]` for truthiness.  A
      missing key reads as undefined, which passes neither test. */
  predicate Hit(data: map<string, Value>, key: string, byTruthiness: bool)
  {
    key in data && (if byTruthiness then TruthyValue(data[key]) else data[key] != P(Undefined))
  }

  /** One getter call: the result and the cache afterwards.  `step` is what
      computing the field gives, together with the cache as the computation
      leaves it (a getter may call another getter that caches); `stores`
      says whether this getter caches what it computed. */
  function Memo(data: map<string, Value>, key: string, byTruthiness: bool, loaded: bool,
                notLoaded: Error, step: (Result<Value>, map<string, Value>), stores: bool)
    : (out: (Result<Value>, map<string, Value>))
    ensures Hit(data, key, byTruthiness) ==> out == (Ok(data[key]), data)
    ensures !Hit(data, key, byTruthiness) && !loaded ==> out == (Err(notLoaded), data)
    ensures !Hit(data, key, byTruthiness) && loaded ==> out.0 == step.0
    ensures !Hit(data, key, byTruthiness) && loaded && stores && step.0.Ok? ==>
      out.1 == step.1[key := step.0.value]
    ensures !Hit(data, key, byTruthiness) && loaded && !(stores && step.0.Ok?) ==> out.1 == step.1
  {
    if Hit(data, key, byTruthiness) then (Ok(data[key]), data)
    else if !loaded then (Err(notLoaded), data)
    else if stores && step.0.Ok? then (step.0, step.1[key := step.0.value])
    else step
  }

  // ---------------------------------------------------------------------
  // Properties

  /** Once a getter has stored a value the cache accepts, every later call
      returns that value and changes nothing, whatever computing it again
      would give and whether or not the entity is still loaded. */
  lemma MemoStable(data: map<string, Value>, key: string, byTruthiness: bool, loaded: bool,
                   notLoaded: Error, step: (Result<Value>, map<string, Value>), stores: bool,
                   loaded': bool, step': (Result<Value>, map<string, Value>))
    requires var out := Memo(data, key, byTruthiness, loaded, notLoaded, step, stores);
      out.0.Ok? && (key in out.1 && out.1[key] == out.0.value)
    requires byTruthiness ==> TruthyValue(Memo(data, key, byTruthiness, loaded, notLoaded, step, stores).0.value)
    requires !byTruthiness ==> Memo(data, key, byTruthiness, loaded, notLoaded, step, stores).0.value != P(Undefined)
    ensures var out := Memo(data, key, byTruthiness, loaded, notLoaded, step, stores);
      Memo(out.1, key, byTruthiness, loaded', notLoaded, step', stores) == out
  {
  }

  /** A getter that does not store, over a computation that leaves the cache
      alone, never changes the cache. */
  lemma MemoNoStore(data: map<string, Value>, key: string, byTruthiness: bool, loaded: bool,
                    notLoaded: Error, value: Result<Value>)
    ensures Memo(data, key, byTruthiness, loaded, notLoaded, (value, data), false).1 == data
  {
  }

  /** A getter never fails on an unloaded entity when the cache answers, and
      always fails with the entity's own error when it does not. */
  lemma MemoUnloaded(data: map<string, Value>, key: string, byTruthiness: bool,
                     notLoaded: Error, step: (Result<Value>, map<string, Value>), stores: bool)
    ensures var out := Memo(data, key, byTruthiness, false, notLoaded, step, stores);
      out.1 == data && (out.0.Ok? <==> Hit(data, key, byTruthiness)) &&
      (out.0.Err? ==> out.0.error == notLoaded)
  {
  }
}
