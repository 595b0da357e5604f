/**
 * The restaurant record and the two patches the listing view applies to its
 * local copy of the collection after a successful mutation: replace by
 * identifier after an update, and remove by identifier after a delete.
 */
module Records {

  /** A restaurant as the server returns it; `image` is the stored image's URL. */
  datatype Restaurant = Restaurant(id: string, name: string, image: string, location: string, contact: string)

  /** No two records of the list share an identifier. */
  ghost predicate UniqueIds(s: seq<Restaurant>) {
    forall i, j :: 0 <= i < j < |s| ==> s[i].id != s[j].id
  }

  /** How many records of the list carry the identifier `id`. */
  function CountId(s: seq<Restaurant>, id: string): (n: nat)
    ensures n <= |s|
    ensures n == 0 <==> forall i :: 0 <= i < |s| ==> s[i].id != id
  {
    if s == [] then 0
    else (if s[0].id == id then 1 else 0) + CountId(s[1..], id)
  }

  /** `a` is `b` with some elements left out and the rest kept in their order. */
  ghost predicate Subsequence<T>(a: seq<T>, b: seq<T>)
    decreases |b|
  {
    if a == [] then true
    else if b == [] then false
    else (a[0] == b[0] && Subsequence(a[1..], b[1..])) || Subsequence(a, b[1..])
  }

  // ---------------------------------------------------------------------
  // Replace by identifier (the `map` after an update)

  /**
   * Every record whose identifier is `id` becomes `updated`; every other
   * record stays as it is, at the same position.
   */
  function ReplaceById(s: seq<Restaurant>, id: string, updated: Restaurant): (r: seq<Restaurant>)
    ensures |r| == |s|
    ensures forall i :: 0 <= i < |s| && s[i].id == id ==> r[i] == updated
    ensures forall i :: 0 <= i < |s| && s[i].id != id ==> r[i] == s[i]
  {
    if s == [] then []
    else [if s[0].id == id then updated else s[0]] + ReplaceById(s[1..], id, updated)
  }

  /** When no record carries the identifier, the list is left as it is. */
  lemma ReplaceAbsentIsIdentity(s: seq<Restaurant>, id: string, updated: Restaurant)
    requires CountId(s, id) == 0
    ensures ReplaceById(s, id, updated) == s
  {
  }

  /** Applying the same update twice changes nothing more, whatever record the server returned. */
  lemma ReplaceIdempotent(s: seq<Restaurant>, id: string, updated: Restaurant)
    ensures ReplaceById(ReplaceById(s, id, updated), id, updated) == ReplaceById(s, id, updated)
  {
  }

  /** An update that keeps the identifier keeps every identifier, and so keeps them unique. */
  lemma ReplaceKeepsIds(s: seq<Restaurant>, id: string, updated: Restaurant)
    requires updated.id == id
    ensures forall i :: 0 <= i < |s| ==> ReplaceById(s, id, updated)[i].id == s[i].id
    ensures UniqueIds(s) ==> UniqueIds(ReplaceById(s, id, updated))
  {
  }

  /** With unique identifiers, exactly the one record with that identifier changes. */
  lemma ReplaceUniqueChangesOne(s: seq<Restaurant>, k: nat, updated: Restaurant)
    requires UniqueIds(s) && k < |s|
    ensures ReplaceById(s, s[k].id, updated) == s[k := updated]
  {
  }

  // ---------------------------------------------------------------------
  // Remove by identifier (the `filter` after a delete)

  /**
   * The records whose identifier is not `id`, in their original order:
   * a subsequence of `s` that leaves out exactly the records with that
   * identifier.
   */
  function RemoveById(s: seq<Restaurant>, id: string): (r: seq<Restaurant>)
    ensures Subsequence(r, s)
    ensures |r| == |s| - CountId(s, id)
    ensures forall x :: x in r <==> x in s && x.id != id
  {
    if s == [] then []
    else if s[0].id == id then RemoveById(s[1..], id)
    else [s[0]] + RemoveById(s[1..], id)
  }

  /** With unique identifiers, an identifier in the list is carried by exactly one record. */
  lemma {:induction false} CountIdUnique(s: seq<Restaurant>, k: nat)
    requires UniqueIds(s) && k < |s|
    ensures CountId(s, s[k].id) == 1
  {
    if k == 0 {
      assert forall i :: 0 <= i < |s[1..]| ==> s[1..][i].id != s[0].id by {
        forall i | 0 <= i < |s[1..]| ensures s[1..][i].id != s[0].id {
          assert s[1..][i] == s[i + 1];
        }
      }
    } else {
      assert s[1..][k - 1] == s[k];
      CountIdUnique(s[1..], k - 1);
    }
  }

  /** Deleting a record that is present, from a list with unique identifiers, shortens it by exactly one. */
  lemma RemovePresentShortensByOne(s: seq<Restaurant>, id: string)
    requires UniqueIds(s)
    requires exists k :: 0 <= k < |s| && s[k].id == id
    ensures |RemoveById(s, id)| == |s| - 1
    ensures forall x :: x in RemoveById(s, id) ==> x.id != id
  {
    var k :| 0 <= k < |s| && s[k].id == id;
    CountIdUnique(s, k);
  }

  /** Deleting an identifier that is absent leaves the list as it is. */
  lemma {:induction false} RemoveAbsentIsIdentity(s: seq<Restaurant>, id: string)
    requires CountId(s, id) == 0
    ensures RemoveById(s, id) == s
  {
    if s != [] {
      RemoveAbsentIsIdentity(s[1..], id);
    }
  }

  /** Deleting twice is deleting once. */
  lemma RemoveIdempotent(s: seq<Restaurant>, id: string)
    ensures RemoveById(RemoveById(s, id), id) == RemoveById(s, id)
  {
    var r := RemoveById(s, id);
    assert forall i :: 0 <= i < |r| ==> r[i].id != id by {
      forall i | 0 <= i < |r| ensures r[i].id != id {
        assert r[i] in r;
      }
    }
    RemoveAbsentIsIdentity(r, id);
  }

  /** A subsequence of a list with unique identifiers has unique identifiers. */
  lemma {:induction false} SubsequenceKeepsUniqueIds(a: seq<Restaurant>, b: seq<Restaurant>)
    requires Subsequence(a, b) && UniqueIds(b)
    ensures UniqueIds(a)
    decreases |b|
  {
    if a != [] && b != [] {
      assert UniqueIds(b[1..]) by {
        forall i, j | 0 <= i < j < |b[1..]| ensures b[1..][i].id != b[1..][j].id {
          assert b[1..][i] == b[i + 1] && b[1..][j] == b[j + 1];
        }
      }
      if a[0] == b[0] && Subsequence(a[1..], b[1..]) {
        SubsequenceKeepsUniqueIds(a[1..], b[1..]);
        SubsequenceMembers(a[1..], b[1..]);
        forall j | 0 < j < |a| ensures a[0].id != a[j].id {
          assert a[j] == a[1..][j - 1];
          assert a[j] in a[1..];
          assert a[j] in b[1..];
          var m :| 0 <= m < |b[1..]| && b[1..][m] == a[j];
          assert b[m + 1] == a[j];
        }
        assert forall i, j :: 0 < i < j < |a| ==> a[i].id != a[j].id by {
          forall i, j | 0 < i < j < |a| ensures a[i].id != a[j].id {
            assert a[i] == a[1..][i - 1] && a[j] == a[1..][j - 1];
          }
        }
      } else {
        SubsequenceKeepsUniqueIds(a, b[1..]);
      }
    }
  }

  /** Every element of a subsequence is an element of the whole. */
  lemma {:induction false} SubsequenceMembers<T>(a: seq<T>, b: seq<T>)
    requires Subsequence(a, b)
    ensures forall x :: x in a ==> x in b
    decreases |b|
  {
    if a != [] && b != [] {
      if a[0] == b[0] && Subsequence(a[1..], b[1..]) {
        SubsequenceMembers(a[1..], b[1..]);
        assert forall x :: x in a ==> x == a[0] || x in a[1..];
      } else {
        SubsequenceMembers(a, b[1..]);
      }
    }
  }

  /** Deleting keeps the identifiers of the remaining records unique. */
  lemma RemoveKeepsUniqueIds(s: seq<Restaurant>, id: string)
    requires UniqueIds(s)
    ensures UniqueIds(RemoveById(s, id))
  {
    SubsequenceKeepsUniqueIds(RemoveById(s, id), s);
  }

  /** Updating a record and then deleting it leaves the same list as deleting it straight away. */
  lemma {:induction false} RemoveAfterReplace(s: seq<Restaurant>, id: string, updated: Restaurant)
    requires updated.id == id
    ensures RemoveById(ReplaceById(s, id, updated), id) == RemoveById(s, id)
  {
    if s != [] {
      RemoveAfterReplace(s[1..], id, updated);
      assert ReplaceById(s, id, updated)[1..] == ReplaceById(s[1..], id, updated);
    }
  }
}
