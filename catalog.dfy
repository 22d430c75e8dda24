/** The resource catalog's search box: the list shown keeps the resources
    whose name, type or location contains the search text, ignoring letter
    case. Lower-casing is ASCII only. */
module Catalog {
  import opened Seqs

  datatype Resource = Resource(
    id: string,
    name: string,
    kind: string,              // the `type` column: Lab, Hall, Equipment, ...
    description: Option<string>,
    location: Option<string>,
    status: string)

  function LowerChar(c: char): char
  {
    if 'A' <= c <= 'Z' then (c as int + 32) as char else c
  }

  /** `toLowerCase()` restricted to ASCII letters. */
  function ToLower(s: string): (r: string)
    ensures |r| == |s|
    ensures forall i :: 0 <= i < |s| ==> r[i] == LowerChar(s[i])
    ensures forall i :: 0 <= i < |s| ==> !('A' <= r[i] <= 'Z')
  {
    if s == [] then [] else [LowerChar(s[0])] + ToLower(s[1..])
  }

  /** `s.includes(sub)`: `sub` occurs in `s` at some position. */
  predicate Includes(s: string, sub: string)
  {
    sub <= s || (s != [] && Includes(s[1..], sub))
  }

  /** `sub` sits in `s` starting at index `i`. */
  predicate OccursAt(s: string, sub: string, i: int)
  {
    0 <= i <= |s| - |sub| && s[i..i + |sub|] == sub
  }

  /** The position-based reading of `includes`: `Includes` holds exactly when
      `sub` occurs in `s` at some index. */
  lemma {:induction false} IncludesIffOccurs(s: string, sub: string)
    ensures Includes(s, sub) <==> exists i :: OccursAt(s, sub, i)
  {
    if sub <= s {
      assert OccursAt(s, sub, 0);
    } else if s == [] {
    } else {
      IncludesIffOccurs(s[1..], sub);
      if Includes(s[1..], sub) {
        var i :| OccursAt(s[1..], sub, i);
        assert s[1..][i..i + |sub|] == s[i + 1..i + 1 + |sub|];
        assert OccursAt(s, sub, i + 1);
      }
      if exists i :: OccursAt(s, sub, i) {
        var i :| OccursAt(s, sub, i);
        // i == 0 would make `sub` a prefix of `s`, excluded above
        if i > 0 {
          assert s[1..][i - 1..i - 1 + |sub|] == s[i..i + |sub|];
          assert OccursAt(s[1..], sub, i - 1);
        }
      }
    }
  }

  /** The search predicate: name, type, or a present location contains the
      search text, all lower-cased; an absent location contributes false. */
  predicate Matches(r: Resource, search: string)
  {
    var q := ToLower(search);
    Includes(ToLower(r.name), q)
    || Includes(ToLower(r.kind), q)
    || (r.location.Some? && Includes(ToLower(r.location.value), q))
  }

  /** `filteredResources`. */
  function FilteredResources(resources: seq<Resource>, search: string): (r: seq<Resource>)
    ensures IsSubsequence(r, resources)
    ensures forall x :: x in r <==> x in resources && Matches(x, search)
    ensures forall x :: multiset(r)[x] == if Matches(x, search) then multiset(resources)[x] else 0
  {
    Filter(resources, (x: Resource) => Matches(x, search))
  }

  /** A resource without a location is kept only on its name or its type. */
  lemma AbsentLocationNeverMatches(r: Resource, search: string)
    requires r.location.None?
    ensures Matches(r, search) <==>
      Includes(ToLower(r.name), ToLower(search)) || Includes(ToLower(r.kind), ToLower(search))
  {
  }

  /** An empty search shows the whole catalog. */
  lemma EmptySearchKeepsAll(resources: seq<Resource>)
    ensures FilteredResources(resources, "") == resources
  {
    forall x | x in resources
      ensures Matches(x, "")
    {
      assert ToLower("") == "";
      assert Includes(ToLower(x.name), "");
    }
    FilterKeepsAll(resources, (x: Resource) => Matches(x, ""));
  }

  /** Lower-casing the lower-cased text changes nothing. */
  lemma ToLowerIdempotent(s: string)
    ensures ToLower(ToLower(s)) == ToLower(s)
  {
  }

  /** Two searches that lower-case to the same text, such as "LAB" and "lab",
      show the same resources. */
  lemma CaseInsensitiveSearch(resources: seq<Resource>, s1: string, s2: string)
    requires ToLower(s1) == ToLower(s2)
    ensures FilteredResources(resources, s1) == FilteredResources(resources, s2)
  {
    FilterCongruent(resources, (x: Resource) => Matches(x, s1), (x: Resource) => Matches(x, s2));
  }

  /** In particular a search and its lower-cased form agree. */
  lemma SearchLowerCasedAgrees(resources: seq<Resource>, search: string)
    ensures FilteredResources(resources, ToLower(search)) == FilteredResources(resources, search)
  {
    ToLowerIdempotent(search);
    CaseInsensitiveSearch(resources, ToLower(search), search);
  }

  /** Searching the shown list again with the same text shows the same list. */
  lemma RefilterIsIdentity(resources: seq<Resource>, search: string)
    ensures FilteredResources(FilteredResources(resources, search), search) == FilteredResources(resources, search)
  {
    FilterIdempotent(resources, (x: Resource) => Matches(x, search));
  }
}
