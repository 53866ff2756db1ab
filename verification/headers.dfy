/** Header fields keyed by name, where setting a name that is already present
    replaces its value. This is how both the response record's `[]=` and the
    transport's request-header setter behave. */
module Headers {
  import opened Wrappers

  type Fields = map<string, string>

  /** Sets one header; the previous value under `name`, if any, is replaced and
      no other name is touched. */
  function Put(f: Fields, name: string, value: string): (r: Fields)
    ensures r.Keys == f.Keys + {name}
    ensures r[name] == value
    ensures forall k :: k in f && k != name ==> r[k] == f[k]
  {
    f[name := value]
  }

  /** Applies `pairs` in order, each one with `Put`. */
  function PutAll(f: Fields, pairs: seq<(string, string)>): Fields
  {
    if |pairs| == 0 then f
    else Put(PutAll(f, pairs[..|pairs| - 1]), pairs[|pairs| - 1].0, pairs[|pairs| - 1].1)
  }

  /** Reference definition: the value of the last pair named `name`, if any. */
  function LastValue(pairs: seq<(string, string)>, name: string): Option<string>
  {
    if |pairs| == 0 then None
    else if pairs[|pairs| - 1].0 == name then Some(pairs[|pairs| - 1].1)
    else LastValue(pairs[..|pairs| - 1], name)
  }

  /** After applying `pairs`, a name holds the value of its last occurrence in
      `pairs` (a later header overwrites an earlier one); a name that does not
      occur keeps whatever it had before, and no other name appears. */
  lemma {:induction false} PutAllLookup(f: Fields, pairs: seq<(string, string)>, name: string)
    ensures LastValue(pairs, name).Some? ==>
              name in PutAll(f, pairs) && PutAll(f, pairs)[name] == LastValue(pairs, name).value
    ensures LastValue(pairs, name).None? ==>
              (name in PutAll(f, pairs) <==> name in f) &&
              (name in f ==> PutAll(f, pairs)[name] == f[name])
    decreases |pairs|
  {
    if |pairs| > 0 {
      PutAllLookup(f, pairs[..|pairs| - 1], name);
    }
  }
}
