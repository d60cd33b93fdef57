/** What the entry forms share: an error map keyed by field, filled one
    check at a time, and blanked field by field while the user types. */
module Forms {
  import opened Wrappers
  import opened JsText

  /** JavaScript truthiness of an optional text: present and non-empty. */
  predicate Filled(s: Option<string>) {
    s.Some? && s.value != []
  }

  /** `m` with the error `e` of field `f` recorded, if there is one. */
  function Put<K>(m: map<K, string>, f: K, e: Option<string>): (r: map<K, string>)
    ensures e.None? ==> r == m
    ensures e.Some? ==> r == m[f := e.value]
  {
    if e.Some? then m[f := e.value] else m
  }

  /** A validation that checks three distinct fields in turn, when no
      other field can have an error: the keys of its map are the fields
      that have an error, each holding its own. */
  lemma PutThree<K(!new)>(k1: K, k2: K, k3: K, err: K -> Option<string>)
    requires k1 != k2 && k1 != k3 && k2 != k3
    requires forall f | f != k1 && f != k2 && f != k3 :: err(f).None?
    ensures forall f :: f in Put(Put(Put(map[], k1, err(k1)), k2, err(k2)), k3, err(k3)) <==> err(f).Some?
    ensures forall f | f in Put(Put(Put(map[], k1, err(k1)), k2, err(k2)), k3, err(k3)) ::
      Put(Put(Put(map[], k1, err(k1)), k2, err(k2)), k3, err(k3))[f] == err(f).value
  {
  }

  /** A required text with a minimum trimmed length, reported with one
      message when missing or blank and another when too short. */
  function TextError(s: Option<string>, min: nat, required: string, short: string): (e: Option<string>)
    ensures e.None? <==> s.Some? && |Trim(s.value)| >= min && Trim(s.value) != []
    ensures e.Some? ==> e.value == required || e.value == short
    ensures s.None? || Trim(s.value) == [] ==> e == Some(required)
  {
    if s.None? || Trim(s.value) == [] then Some(required)
    else if |Trim(s.value)| < min then Some(short)
    else None
  }

  /** `!s || s.trim().length < min`: a required text with a minimum trimmed
      length, reported with a single message. */
  function MinLengthError(s: Option<string>, min: nat, message: string): (e: Option<string>)
    ensures e.None? <==> s.Some? && |Trim(s.value)| >= min && s.value != []
    ensures e.Some? ==> e.value == message
  {
    if !Filled(s) || |Trim(s.value)| < min then Some(message) else None
  }

  /** When the minimum is positive a blank text is refused too. */
  lemma MinLengthRefusesBlank(s: string, min: nat, message: string)
    requires min > 0 && Trim(s) == []
    ensures MinLengthError(Some(s), min, message) == Some(message)
  {
  }

  /** `if (errors[name]) errors = {...errors, [name]: ''}`: the error entry
      of the edited field is blanked when it holds a message; every other
      entry, and the set of keys, is kept. */
  function Cleared<K>(errors: map<K, string>, name: K): (r: map<K, string>)
    ensures r.Keys == errors.Keys
    ensures forall f | f in r && f != name :: r[f] == errors[f]
    ensures name in r ==> r[name] == ""
  {
    if name in errors && errors[name] != "" then errors[name := ""] else errors
  }

  /** Blanking twice is blanking once. */
  lemma ClearedIdempotent<K>(errors: map<K, string>, name: K)
    ensures Cleared(Cleared(errors, name), name) == Cleared(errors, name)
  {
  }
}
