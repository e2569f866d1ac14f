/** Editing of stored document specs: lookup, replacement, and the three unit-list
    edits (delete at an index, insert at a position, reorder by a permutation of
    the indices). Every check precedes the store, so a failed call changes nothing.
    Only the in-memory maps are modelled; each successful edit would also rewrite
    the spec's file. */
module SpecService {
  import opened Common
  import opened Models

  /** The exceptions the service raises. */
  datatype SpecError = KeyError(message: string) | IndexError(message: string) | ValueError(message: string)

  function NotFound(specId: string): SpecError
  {
    KeyError("Spec not found: " + specId)
  }

  // ---------------------------------------------------------------------------
  // The unit-list operations

  /** `[x for i, x in enumerate(s) if i != k]`. */
  function WithoutIndex<T>(s: seq<T>, k: int): seq<T>
  {
    if s == [] then []
    else WithoutIndex(s[..|s| - 1], k) + (if |s| - 1 != k then [s[|s| - 1]] else [])
  }

  /** An index outside the list removes nothing. */
  lemma {:induction false} WithoutIndexOutside<T>(s: seq<T>, k: int)
    requires k < 0 || k >= |s|
    ensures WithoutIndex(s, k) == s
  {
    if s != [] {
      WithoutIndexOutside(s[..|s| - 1], k);
    }
  }

  /** Removing index k keeps everything before k and everything after it, in order. */
  lemma {:induction false} WithoutIndexIsRemoval<T>(s: seq<T>, k: int)
    requires 0 <= k < |s|
    ensures WithoutIndex(s, k) == s[..k] + s[k + 1..]
  {
    var pre := s[..|s| - 1];
    if k == |s| - 1 {
      WithoutIndexOutside(pre, k);
    } else {
      WithoutIndexIsRemoval(pre, k);
      assert pre[..k] == s[..k];
      assert pre[k + 1..] + [s[|s| - 1]] == s[k + 1..];
    }
  }

  /** `list(s)` followed by `insert(p, x)`, for a position inside the bounds. */
  function InsertAt<T>(s: seq<T>, p: nat, x: T): seq<T>
    requires p <= |s|
  {
    s[..p] + [x] + s[p..]
  }

  /** `list(range(n))`. */
  function Range(n: nat): (r: seq<int>)
    ensures |r| == n
    ensures forall i :: 0 <= i < n ==> r[i] == i
  {
    if n == 0 then [] else Range(n - 1) + [n - 1]
  }

  /** `sorted(order) == list(range(n))`: sorting is unique, so this holds exactly when
      `order` has the same elements as `range(n)`, counted with multiplicity. */
  predicate SortsToRange(order: seq<int>, n: nat)
  {
    multiset(order) == multiset(Range(n))
  }

  predicate InBounds<T>(s: seq<T>, order: seq<int>)
  {
    forall j :: 0 <= j < |order| ==> 0 <= order[j] < |s|
  }

  /** `[s[i] for i in order]`. */
  function Pick<T>(s: seq<T>, order: seq<int>): (r: seq<T>)
    requires InBounds(s, order)
    ensures |r| == |order|
  {
    if order == [] then [] else Pick(s, order[..|order| - 1]) + [s[order[|order| - 1]]]
  }

  lemma {:induction false} PickAt<T>(s: seq<T>, order: seq<int>, i: nat)
    requires InBounds(s, order) && i < |order|
    ensures Pick(s, order)[i] == s[order[i]]
  {
    if i < |order| - 1 {
      PickAt(s, order[..|order| - 1], i);
    }
  }

  lemma {:induction false} PickAppend<T>(s: seq<T>, a: seq<int>, b: seq<int>)
    requires InBounds(s, a) && InBounds(s, b)
    ensures InBounds(s, a + b) && Pick(s, a + b) == Pick(s, a) + Pick(s, b)
    decreases |b|
  {
    if b == [] {
      assert a + b == a;
    } else {
      assert (a + b)[..|a + b| - 1] == a + b[..|b| - 1];
      PickAppend(s, a, b[..|b| - 1]);
    }
  }

  /** A permutation of the indices 0..n-1 lists each of them once. */
  lemma SortsToRangeBounds<T>(s: seq<T>, order: seq<int>)
    requires SortsToRange(order, |s|)
    ensures |order| == |s| && InBounds(s, order)
  {
    assert |multiset(order)| == |order|;
    assert |multiset(Range(|s|))| == |s|;
    forall j | 0 <= j < |order| ensures 0 <= order[j] < |s| {
      assert order[j] in multiset(order);
      assert order[j] in Range(|s|);
    }
  }

  /** One element in the middle of a sequence counts once in its multiset. */
  lemma MultisetMiddle<U>(x: seq<U>, v: U, y: seq<U>)
    ensures multiset(x + [v] + y) == multiset(x + y) + multiset{v}
  {
    assert multiset(x + [v] + y) == multiset(x) + multiset{v} + multiset(y);
    assert multiset(x + y) == multiset(x) + multiset(y);
  }

  /** What b picks, split around position p. */
  lemma PickSplit<T>(s: seq<T>, b: seq<int>, p: nat)
    requires InBounds(s, b) && p < |b|
    ensures InBounds(s, b[..p]) && InBounds(s, b[p + 1..]) && InBounds(s, b[..p] + b[p + 1..])
    ensures Pick(s, b) == Pick(s, b[..p]) + [s[b[p]]] + Pick(s, b[p + 1..])
    ensures Pick(s, b[..p] + b[p + 1..]) == Pick(s, b[..p]) + Pick(s, b[p + 1..])
  {
    var l, r := b[..p], b[p + 1..];
    assert b == l + [b[p]] + r;
    PickAppend(s, l, [b[p]]);
    PickAppend(s, l + [b[p]], r);
    PickAppend(s, l, r);
    assert Pick(s, [b[p]]) == [s[b[p]]];
  }

  /** Taking index p out of b takes one s[b[p]] out of what b picks. */
  lemma PickWithout<T>(s: seq<T>, b: seq<int>, p: nat)
    requires InBounds(s, b) && p < |b|
    ensures InBounds(s, b[..p] + b[p + 1..])
    ensures multiset(b[..p] + b[p + 1..]) == multiset(b) - multiset{b[p]}
    ensures multiset(Pick(s, b)) == multiset(Pick(s, b[..p] + b[p + 1..])) + multiset{s[b[p]]}
  {
    assert b == b[..p] + [b[p]] + b[p + 1..];
    MultisetMiddle(b[..p], b[p], b[p + 1..]);
    PickSplit(s, b, p);
    MultisetMiddle(Pick(s, b[..p]), s[b[p]], Pick(s, b[p + 1..]));
  }

  /** Picking with index lists that are rearrangements of each other yields
      rearrangements of each other. */
  lemma {:induction false} PickRespectsMultiset<T>(s: seq<T>, a: seq<int>, b: seq<int>)
    requires InBounds(s, a) && InBounds(s, b) && multiset(a) == multiset(b)
    ensures multiset(Pick(s, a)) == multiset(Pick(s, b))
    decreases |a|
  {
    if a != [] {
      var j := a[|a| - 1];
      assert j in multiset(b);
      var p :| 0 <= p < |b| && b[p] == j;
      PickWithout(s, a, |a| - 1);
      assert a[..|a| - 1] + a[|a|..] == a[..|a| - 1];
      PickWithout(s, b, p);
      PickRespectsMultiset(s, a[..|a| - 1], b[..p] + b[p + 1..]);
    }
  }

  /** The identity order picks the list itself. */
  lemma {:induction false} PickRange<T>(s: seq<T>, n: nat)
    requires n <= |s|
    ensures InBounds(s, Range(n)) && Pick(s, Range(n)) == s[..n]
  {
    if n > 0 {
      PickRange(s, n - 1);
      assert Range(n)[..n - 1] == Range(n - 1);
      assert s[..n] == s[..n - 1] + [s[n - 1]];
    }
  }

  // ---------------------------------------------------------------------------
  // The edits on one spec, as values

  /** `delete_ku` after the lookup: an index error outside 0..len-1, otherwise the
      spec without that unit. */
  function DeletedKu(spec: DocumentSpec, kuIndex: int): (r: Result<DocumentSpec, SpecError>)
    ensures r.Ok? <==> 0 <= kuIndex < |spec.knowledgeUnits|
    ensures r.Err? ==> r.error == IndexError("Knowledge unit index out of range: " + IntToString(kuIndex))
    ensures r.Ok? ==> r.value.topic == spec.topic &&
                      r.value.knowledgeUnits == spec.knowledgeUnits[..kuIndex] + spec.knowledgeUnits[kuIndex + 1..] &&
                      |r.value.knowledgeUnits| == |spec.knowledgeUnits| - 1
  {
    var kus := spec.knowledgeUnits;
    if kuIndex < 0 || kuIndex >= |kus| then
      Err(IndexError("Knowledge unit index out of range: " + IntToString(kuIndex)))
    else
      WithoutIndexIsRemoval(kus, kuIndex);
      Ok(DocumentSpec(spec.topic, WithoutIndex(kus, kuIndex)))
  }

  /** `add_ku` after the lookup: a value error outside 0..len, otherwise the spec
      with the unit inserted at the position. */
  function AddedKu(spec: DocumentSpec, ku: KnowledgeUnitSpec, position: int): (r: Result<DocumentSpec, SpecError>)
    ensures r.Ok? <==> 0 <= position <= |spec.knowledgeUnits|
    ensures r.Err? ==> r.error == ValueError("Invalid position: " + IntToString(position) +
                                              ". Must be between 0 and " + IntToString(|spec.knowledgeUnits|))
    ensures r.Ok? ==> r.value.topic == spec.topic &&
                      |r.value.knowledgeUnits| == |spec.knowledgeUnits| + 1 &&
                      r.value.knowledgeUnits[position] == ku &&
                      r.value.knowledgeUnits[..position] == spec.knowledgeUnits[..position] &&
                      r.value.knowledgeUnits[position + 1..] == spec.knowledgeUnits[position..]
  {
    var kus := spec.knowledgeUnits;
    if position < 0 || position > |kus| then
      Err(ValueError("Invalid position: " + IntToString(position) +
                     ". Must be between 0 and " + IntToString(|kus|)))
    else
      var r := InsertAt(kus, position, ku);
      assert r[..position] == kus[..position] && r[position + 1..] == kus[position..];
      Ok(DocumentSpec(spec.topic, r))
  }

  /** Picking by a permutation of the positions rearranges the units: position i
      holds the unit at `newOrder[i]`, and every unit is kept as often as it was. */
  lemma PickPermutes(kus: seq<KnowledgeUnitSpec>, newOrder: seq<int>)
    requires |newOrder| == |kus| && SortsToRange(newOrder, |kus|)
    ensures InBounds(kus, newOrder)
    ensures |Pick(kus, newOrder)| == |kus|
    ensures forall i :: 0 <= i < |newOrder| ==>
              0 <= newOrder[i] < |kus| && Pick(kus, newOrder)[i] == kus[newOrder[i]]
    ensures multiset(Pick(kus, newOrder)) == multiset(kus)
  {
    var n := |kus|;
    SortsToRangeBounds(kus, newOrder);
    PickRange(kus, n);
    PickRespectsMultiset(kus, newOrder, Range(n));
    assert kus[..n] == kus;
    forall i | 0 <= i < |newOrder| ensures Pick(kus, newOrder)[i] == kus[newOrder[i]] {
      PickAt(kus, newOrder, i);
    }
  }

  /** `reorder_kus` after the lookup: a value error when the order has the wrong
      length or is not a permutation of 0..n-1, otherwise the units rearranged so
      that position i holds the unit that was at `newOrder[i]`. */
  function ReorderedKus(spec: DocumentSpec, newOrder: seq<int>): (r: Result<DocumentSpec, SpecError>)
    ensures r.Ok? <==> |newOrder| == |spec.knowledgeUnits| && SortsToRange(newOrder, |spec.knowledgeUnits|)
    ensures |newOrder| != |spec.knowledgeUnits| ==>
              r == Err(ValueError("new_order length (" + NatToString(|newOrder|) + ") must match " +
                                  "number of knowledge units (" + NatToString(|spec.knowledgeUnits|) + ")"))
    ensures |newOrder| == |spec.knowledgeUnits| && !SortsToRange(newOrder, |spec.knowledgeUnits|) ==>
              r == Err(ValueError("new_order must be a permutation of indices 0 to " +
                                  IntToString(|spec.knowledgeUnits| - 1)))
    ensures r.Ok? ==> r.value.topic == spec.topic &&
                      |r.value.knowledgeUnits| == |spec.knowledgeUnits| &&
                      (forall i :: 0 <= i < |newOrder| ==>
                         0 <= newOrder[i] < |spec.knowledgeUnits| &&
                         r.value.knowledgeUnits[i] == spec.knowledgeUnits[newOrder[i]]) &&
                      multiset(r.value.knowledgeUnits) == multiset(spec.knowledgeUnits)
  {
    var kus := spec.knowledgeUnits;
    var n := |kus|;
    if |newOrder| != n then
      Err(ValueError("new_order length (" + NatToString(|newOrder|) + ") must match " +
                     "number of knowledge units (" + NatToString(n) + ")"))
    else if !SortsToRange(newOrder, n) then
      Err(ValueError("new_order must be a permutation of indices 0 to " + IntToString(n - 1)))
    else
      PickPermutes(kus, newOrder);
      Ok(DocumentSpec(spec.topic, Pick(kus, newOrder)))
  }

  /** Inserting a unit and then deleting it at the same position gives back the
      original spec. */
  lemma AddThenDelete(spec: DocumentSpec, ku: KnowledgeUnitSpec, position: int)
    requires 0 <= position <= |spec.knowledgeUnits|
    ensures AddedKu(spec, ku, position).Ok?
    ensures DeletedKu(AddedKu(spec, ku, position).value, position) == Ok(spec)
  {
    var added := AddedKu(spec, ku, position).value.knowledgeUnits;
    var kus := spec.knowledgeUnits;
    assert added[..position] + added[position + 1..] == kus[..position] + kus[position..];
    assert kus[..position] + kus[position..] == kus;
  }

  /** The identity order leaves the spec as it is. */
  lemma ReorderIdentity(spec: DocumentSpec)
    ensures ReorderedKus(spec, Range(|spec.knowledgeUnits|)) == Ok(spec)
  {
    var kus := spec.knowledgeUnits;
    var r := ReorderedKus(spec, Range(|kus|));
    assert r.Ok?;
    assert r.value.knowledgeUnits == kus;
  }

  /** The topic recorded next to a stored spec, falling back to the given one. */
  function StoredTopic(topics: map<string, string>, specId: string, fallback: string): string
  {
    if specId in topics then topics[specId] else fallback
  }

  /** `SpecService`: the stored specs and the topic recorded for each. */
  class SpecService {
    var specs: map<string, DocumentSpec>
    /** The `topic` entry of `spec_metadata`. */
    var topics: map<string, string>

    constructor ()
      ensures specs == map[] && topics == map[]
    {
      specs := map[];
      topics := map[];
    }

    /** `generate_spec` after planning: the planner's spec is stored under the id
        derived from the topic. */
    method GenerateSpec(topic: string, planned: DocumentSpec, specId: string) returns (r: (string, DocumentSpec))
      modifies this
      ensures r == (specId, planned)
      ensures specs == old(specs)[specId := planned] && topics == old(topics)[specId := topic]
    {
      specs := specs[specId := planned];
      topics := topics[specId := topic];
      r := (specId, planned);
    }

    /** `get_spec`: the stored spec, or a not-found error. */
    function GetSpec(specId: string): (r: Result<DocumentSpec, SpecError>)
      reads this
      ensures r.Ok? <==> specId in specs
      ensures r.Ok? ==> r.value == specs[specId]
      ensures r.Err? ==> r.error == NotFound(specId)
    {
      if specId !in specs then Err(NotFound(specId)) else Ok(specs[specId])
    }

    /** `update_spec`: replaces a stored spec. Its recorded topic is kept, or taken
        from the new spec when none was recorded. */
    method UpdateSpec(specId: string, spec: DocumentSpec) returns (r: Result<DocumentSpec, SpecError>)
      modifies this
      ensures specId !in old(specs) ==> r == Err(NotFound(specId)) && specs == old(specs) && topics == old(topics)
      ensures specId in old(specs) ==>
                r == Ok(spec) && specs == old(specs)[specId := spec] &&
                topics == old(topics)[specId := StoredTopic(old(topics), specId, spec.topic)]
    {
      if specId !in specs {
        return Err(NotFound(specId));
      }
      var topic := StoredTopic(topics, specId, spec.topic);
      specs := specs[specId := spec];
      topics := topics[specId := topic];
      r := Ok(spec);
    }

    /** Stores the outcome of an edit of a known spec; a failed edit stores nothing. */
    method Store(specId: string, edited: Result<DocumentSpec, SpecError>) returns (r: Result<DocumentSpec, SpecError>)
      requires specId in specs
      modifies this
      ensures r == edited
      ensures edited.Err? ==> specs == old(specs) && topics == old(topics)
      ensures edited.Ok? ==>
                specs == old(specs)[specId := edited.value] &&
                topics == old(topics)[specId := StoredTopic(old(topics), specId, old(specs)[specId].topic)]
    {
      if edited.Ok? {
        var topic := StoredTopic(topics, specId, specs[specId].topic);
        specs := specs[specId := edited.value];
        topics := topics[specId := topic];
      }
      r := edited;
    }

    /** `delete_ku`. */
    method DeleteKu(specId: string, kuIndex: int) returns (r: Result<DocumentSpec, SpecError>)
      modifies this
      ensures specId !in old(specs) ==> r == Err(NotFound(specId))
      ensures specId in old(specs) ==> r == DeletedKu(old(specs)[specId], kuIndex)
      ensures r.Err? ==> specs == old(specs) && topics == old(topics)
      ensures r.Ok? ==>
                specs == old(specs)[specId := r.value] &&
                topics == old(topics)[specId := StoredTopic(old(topics), specId, old(specs)[specId].topic)]
    {
      if specId !in specs {
        return Err(NotFound(specId));
      }
      r := Store(specId, DeletedKu(specs[specId], kuIndex));
    }

    /** `add_ku`. */
    method AddKu(specId: string, ku: KnowledgeUnitSpec, position: int) returns (r: Result<DocumentSpec, SpecError>)
      modifies this
      ensures specId !in old(specs) ==> r == Err(NotFound(specId))
      ensures specId in old(specs) ==> r == AddedKu(old(specs)[specId], ku, position)
      ensures r.Err? ==> specs == old(specs) && topics == old(topics)
      ensures r.Ok? ==>
                specs == old(specs)[specId := r.value] &&
                topics == old(topics)[specId := StoredTopic(old(topics), specId, old(specs)[specId].topic)]
    {
      if specId !in specs {
        return Err(NotFound(specId));
      }
      r := Store(specId, AddedKu(specs[specId], ku, position));
    }

    /** `reorder_kus`. */
    method ReorderKus(specId: string, newOrder: seq<int>) returns (r: Result<DocumentSpec, SpecError>)
      modifies this
      ensures specId !in old(specs) ==> r == Err(NotFound(specId))
      ensures specId in old(specs) ==> r == ReorderedKus(old(specs)[specId], newOrder)
      ensures r.Err? ==> specs == old(specs) && topics == old(topics)
      ensures r.Ok? ==>
                specs == old(specs)[specId := r.value] &&
                topics == old(topics)[specId := StoredTopic(old(topics), specId, old(specs)[specId].topic)]
    {
      if specId !in specs {
        return Err(NotFound(specId));
      }
      r := Store(specId, ReorderedKus(specs[specId], newOrder));
    }
  }
}
