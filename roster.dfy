/** The roster of a course: the user ids of its enrollment entries, in the order they were
    added. Curso.addUsuario appends an entry for a user id, Curso.removeUsuario removes the
    entries carrying a user id, and the enrollment handler scans the entries for a user id
    before it appends. */
module Roster {
  import opened Ids

  /** The entries of one course, each reduced to the user id it references. */
  type Entries = seq<UserId>

  /** Number of entries that reference user `u`. */
  function Count(r: Entries, u: UserId): nat
  {
    if r == [] then 0 else (if r[0] == u then 1 else 0) + Count(r[1..], u)
  }

  /** The roster invariant: no user id appears in two entries. */
  predicate NoDuplicates(r: Entries)
  {
    forall i, j :: 0 <= i < j < |r| ==> r[i] != r[j]
  }

  /** The duplicate-enrollment scan: does some entry reference user `u`? */
  function IsEnrolled(r: Entries, u: UserId): (found: bool)
    ensures found <==> u in r
  {
    r != [] && (r[0] == u || IsEnrolled(r[1..], u))
  }

  /** Curso.addUsuario: append an entry for user `u`. */
  function AddUser(r: Entries, u: UserId): (s: Entries)
    ensures |s| == |r| + 1 && s[..|r|] == r && s[|r|] == u
  {
    r + [u]
  }

  /** Curso.removeUsuario: drop every entry that references user `u`, keeping the others in order. */
  function RemoveUser(r: Entries, u: UserId): (s: Entries)
    ensures u !in s
    ensures forall v :: v != u ==> Count(s, v) == Count(r, v)
    ensures |s| == |r| - Count(r, u)
  {
    if r == [] then []
    else if r[0] == u then RemoveUser(r[1..], u)
    else [r[0]] + RemoveUser(r[1..], u)
  }

  lemma {:induction false} CountZeroIffAbsent(r: Entries, u: UserId)
    ensures Count(r, u) == 0 <==> u !in r
  {
    if r != [] {
      CountZeroIffAbsent(r[1..], u);
      assert r == [r[0]] + r[1..];
    }
  }

  /** Appending an entry for `u` adds one to the count of `u` and leaves every other count alone. */
  lemma {:induction false} CountAddUser(r: Entries, u: UserId, v: UserId)
    ensures Count(AddUser(r, u), v) == Count(r, v) + (if u == v then 1 else 0)
  {
    if r == [] {
      assert AddUser(r, u) == [u];
    } else {
      assert AddUser(r, u)[1..] == AddUser(r[1..], u);
      CountAddUser(r[1..], u, v);
    }
  }

  lemma NoDuplicatesTail(r: Entries)
    requires r != []
    ensures NoDuplicates(r) <==> r[0] !in r[1..] && NoDuplicates(r[1..])
  {
  }

  /** The roster invariant, stated through counts: no user is referenced by two entries. */
  lemma {:induction false} NoDuplicatesIffCountsAtMostOne(r: Entries)
    ensures NoDuplicates(r) <==> forall v :: Count(r, v) <= 1
  {
    if r != [] {
      NoDuplicatesTail(r);
      NoDuplicatesIffCountsAtMostOne(r[1..]);
      CountZeroIffAbsent(r[1..], r[0]);
      if NoDuplicates(r) {
        forall v
          ensures Count(r, v) <= 1
        {
          assert NoDuplicates(r[1..]);
          if v == r[0] {
            assert Count(r[1..], v) == 0;
          } else {
            assert Count(r[1..], v) <= 1;
          }
        }
      } else {
        if r[0] in r[1..] {
          assert Count(r, r[0]) >= 2;
        } else {
          var v :| Count(r[1..], v) > 1;
          assert Count(r, v) > 1;
        }
      }
    }
  }

  /** A user on a duplicate-free roster is referenced by exactly one entry. */
  lemma EnrolledOnceInNoDuplicates(r: Entries, u: UserId)
    requires NoDuplicates(r) && u in r
    ensures Count(r, u) == 1
  {
    NoDuplicatesIffCountsAtMostOne(r);
    CountZeroIffAbsent(r, u);
  }

  /** Appending an absent user keeps the roster duplicate-free and references that user exactly once. */
  lemma AddUserKeepsNoDuplicates(r: Entries, u: UserId)
    requires NoDuplicates(r) && u !in r
    ensures NoDuplicates(AddUser(r, u))
    ensures Count(AddUser(r, u), u) == 1
  {
    CountZeroIffAbsent(r, u);
    CountAddUser(r, u, u);
    NoDuplicatesIffCountsAtMostOne(r);
    forall v
      ensures Count(AddUser(r, u), v) <= 1
    {
      CountAddUser(r, u, v);
    }
    NoDuplicatesIffCountsAtMostOne(AddUser(r, u));
  }

  /** Removing a user's entries keeps the roster duplicate-free. */
  lemma RemoveUserKeepsNoDuplicates(r: Entries, u: UserId)
    requires NoDuplicates(r)
    ensures NoDuplicates(RemoveUser(r, u))
  {
    var s := RemoveUser(r, u);
    NoDuplicatesIffCountsAtMostOne(r);
    CountZeroIffAbsent(s, u);
    forall v
      ensures Count(s, v) <= 1
    {
      if v != u {
        assert Count(s, v) == Count(r, v);
      }
    }
    NoDuplicatesIffCountsAtMostOne(s);
  }

  /** Removing a user who holds no entry is a no-op. */
  lemma {:induction false} RemoveAbsentUser(r: Entries, u: UserId)
    requires u !in r
    ensures RemoveUser(r, u) == r
  {
    if r != [] {
      assert r[0] != u;
      assert u !in r[1..];
      RemoveAbsentUser(r[1..], u);
      assert r == [r[0]] + r[1..];
    }
  }

  /** Removing twice is removing once. */
  lemma RemoveUserIdempotent(r: Entries, u: UserId)
    ensures RemoveUser(RemoveUser(r, u), u) == RemoveUser(r, u)
  {
    RemoveAbsentUser(RemoveUser(r, u), u);
  }

  /** Removal works entry by entry: removing from a concatenation is removing from each part,
      so the entries that stay keep their order. */
  lemma {:induction false} RemoveUserConcat(a: Entries, b: Entries, u: UserId)
    ensures RemoveUser(a + b, u) == RemoveUser(a, u) + RemoveUser(b, u)
  {
    if a != [] {
      assert (a + b)[0] == a[0];
      assert (a + b)[1..] == a[1..] + b;
      RemoveUserConcat(a[1..], b, u);
    } else {
      assert a + b == b;
    }
  }

  /** Enrolling a user who held no entry and then removing that user restores the roster. */
  lemma RemoveUndoesAdd(r: Entries, u: UserId)
    requires u !in r
    ensures RemoveUser(AddUser(r, u), u) == r
  {
    RemoveUserConcat(r, [u], u);
    RemoveAbsentUser(r, u);
    assert RemoveUser([u], u) == [];
  }
}
