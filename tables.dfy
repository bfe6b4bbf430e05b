/** The state table of the machine: an ordered list of state definitions, each
    a state name with its event-to-target transitions.  The order is the key
    order of the configuration object, which is the order `getStates` reports. */
module Tables {

  datatype Option<T> = None | Some(value: T)

  type StateName = string
  type EventName = string

  /** What the configuration holds for one state: its outgoing transitions. */
  datatype StateDef = StateDef(transitions: map<EventName, StateName>)

  /** One key of the table with its definition. */
  datatype Entry = Entry(name: StateName, def: StateDef)

  /** The keys of an object are distinct. */
  predicate DistinctNames(t: seq<Entry>) {
    forall i, j :: 0 <= i < j < |t| ==> t[i].name != t[j].name
  }

  type Table = t: seq<Entry> | DistinctNames(t)

  predicate NoDuplicates<T(==)>(s: seq<T>) {
    forall i, j :: 0 <= i < j < |s| ==> s[i] != s[j]
  }

  /** `r` is obtained from `s` by deleting elements, the rest kept in order. */
  predicate Subsequence<T(==)>(r: seq<T>, s: seq<T>)
    decreases |s|
  {
    if r == [] then true
    else if s == [] then false
    else if r[0] == s[0] then Subsequence(r[1..], s[1..])
    else Subsequence(r, s[1..])
  }

  lemma {:induction false} SubsequenceMembers<T>(r: seq<T>, s: seq<T>, x: T)
    requires Subsequence(r, s) && x in r
    ensures x in s
    decreases |s|
  {
    if r[0] == s[0] {
      if x != r[0] {
        assert x in r[1..];
        SubsequenceMembers(r[1..], s[1..], x);
      }
    } else {
      SubsequenceMembers(r, s[1..], x);
    }
  }

  /** The state names of the table in table order (`Object.keys(this.states)`). */
  function Names(t: Table): (r: seq<StateName>)
    ensures |r| == |t|
    ensures forall i :: 0 <= i < |t| ==> r[i] == t[i].name
    ensures NoDuplicates(r)
    decreases |t|
  {
    if t == [] then [] else [t[0].name] + Names(t[1..])
  }

  /** The definition stored under key `n` (`this.states[n]`), if `n` is a key. */
  function Lookup(t: Table, n: StateName): (r: Option<StateDef>)
    ensures r.Some? <==> n in Names(t)
    ensures r.Some? ==> Entry(n, r.value) in t
    decreases |t|
  {
    if t == [] then None
    else if t[0].name == n then Some(t[0].def)
    else Lookup(t[1..], n)
  }

  /** The names, in table order, of the states that have a transition on `e`
      (the filter/map over `Object.entries(this.states)`). */
  function StatesWith(t: Table, e: EventName): (r: seq<StateName>)
    ensures Subsequence(r, Names(t))
    ensures forall k :: 0 <= k < |t| ==> (t[k].name in r <==> e in t[k].def.transitions)
    decreases |t|
  {
    if t == [] then []
    else
      var rest := StatesWith(t[1..], e);
      assert t[0].name !in rest by {
        if t[0].name in rest {
          SubsequenceMembers(rest, Names(t[1..]), t[0].name);
        }
      }
      if e in t[0].def.transitions then [t[0].name] + rest else rest
  }

  /** JavaScript truthiness of the optional `event` argument of `getStates`:
      an absent argument and the empty string are falsy. */
  predicate Truthy(event: Option<EventName>) {
    event.Some? && event.value != ""
  }

  lemma {:induction false} SubsequenceReflexive<T>(s: seq<T>)
    ensures Subsequence(s, s)
    decreases |s|
  {
    if s != [] {
      SubsequenceReflexive(s[1..]);
    }
  }

  /** No duplicate names follow from the subsequence relation to the keys. */
  lemma {:induction false} SubsequenceOfDistinct<T>(r: seq<T>, s: seq<T>)
    requires Subsequence(r, s) && NoDuplicates(s)
    ensures NoDuplicates(r)
    decreases |s|
  {
    if r != [] {
      if r[0] == s[0] {
        SubsequenceOfDistinct(r[1..], s[1..]);
        forall j | 0 < j < |r| ensures r[0] != r[j] {
          assert r[j] in r[1..];
          SubsequenceMembers(r[1..], s[1..], r[j]);
        }
      } else {
        SubsequenceOfDistinct(r, s[1..]);
      }
    }
  }
}
