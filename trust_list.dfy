/** The trusted-user list of the userscript: an ordered list of handles kept as JSON under one
    local-storage key. The pure functions say what `addTrustedUser` and `removeTrustedUser` make of
    the list; the class holds the stored value and performs the read-modify-write the script does. */
module TrustList {
  import opened Options

  /** No handle occurs twice. */
  predicate NoDuplicates(users: seq<string>)
  {
    forall i, j :: 0 <= i < j < |users| ==> users[i] != users[j]
  }

  /** The list `addTrustedUser(handle)` leaves behind: `handle` is present afterwards, every
      earlier entry keeps its place, and the list grows by one exactly when `handle` was absent. */
  function Added(users: seq<string>, handle: string): (r: seq<string>)
    ensures handle in r
    ensures |users| <= |r| && r[..|users|] == users
    ensures |r| == if handle in users then |users| else |users| + 1
  {
    if handle in users then users else users + [handle]
  }

  /** `users.filter((user) => user !== handle)`: every entry equal to `handle` is dropped. */
  function Without(users: seq<string>, handle: string): (r: seq<string>)
    ensures handle !in r
    ensures |r| <= |users|
  {
    if users == [] then []
    else (if users[0] == handle then [] else [users[0]]) + Without(users[1..], handle)
  }

  /** Every handle other than the removed one occurs in the filtered list exactly as often as in
      the original. */
  lemma {:induction false} WithoutKeepsOthers(users: seq<string>, handle: string, u: string)
    requires u != handle
    ensures multiset(Without(users, handle))[u] == multiset(users)[u]
  {
    if users != [] {
      var head := if users[0] == handle then [] else [users[0]];
      WithoutKeepsOthers(users[1..], handle, u);
      assert users == [users[0]] + users[1..];
      assert multiset(head)[u] == multiset([users[0]])[u];
      calc {
        multiset(Without(users, handle))[u];
        multiset(head + Without(users[1..], handle))[u];
        multiset(head)[u] + multiset(Without(users[1..], handle))[u];
        multiset([users[0]])[u] + multiset(users[1..])[u];
        multiset([users[0]] + users[1..])[u];
      }
    }
  }

  /** Filtering distributes over concatenation, so the kept handles stay in their original
      relative order. */
  lemma {:induction false} WithoutConcat(a: seq<string>, b: seq<string>, handle: string)
    ensures Without(a + b, handle) == Without(a, handle) + Without(b, handle)
  {
    if a == [] {
      assert a + b == b;
    } else {
      assert (a + b)[0] == a[0];
      assert (a + b)[1..] == a[1..] + b;
      WithoutConcat(a[1..], b, handle);
    }
  }

  /** Removing a handle that is not in the list changes nothing. */
  lemma {:induction false} WithoutAbsent(users: seq<string>, handle: string)
    requires handle !in users
    ensures Without(users, handle) == users
  {
    if users != [] {
      assert handle !in users[1..];
      WithoutAbsent(users[1..], handle);
    }
  }

  /** Adding to a duplicate-free list keeps it duplicate-free. */
  lemma AddedKeepsNoDuplicates(users: seq<string>, handle: string)
    requires NoDuplicates(users)
    ensures NoDuplicates(Added(users, handle))
  {
    if handle !in users {
      var r := users + [handle];
      forall i, j | 0 <= i < j < |r|
        ensures r[i] != r[j]
      {
        if j == |users| {
          assert r[i] == users[i];
        }
      }
    }
  }

  /** Every handle of `Without(users, handle)` comes from `users`. */
  lemma WithoutSubset(users: seq<string>, handle: string, u: string)
    requires u in Without(users, handle)
    ensures u in users
  {
    WithoutKeepsOthers(users, handle, u);
    assert multiset(Without(users, handle))[u] > 0;
  }

  /** Removing from a duplicate-free list keeps it duplicate-free. */
  lemma {:induction false} WithoutKeepsNoDuplicates(users: seq<string>, handle: string)
    requires NoDuplicates(users)
    ensures NoDuplicates(Without(users, handle))
  {
    if users != [] {
      WithoutKeepsNoDuplicates(users[1..], handle);
      var rest := Without(users[1..], handle);
      if users[0] != handle {
        var r := [users[0]] + rest;
        forall i, j | 0 <= i < j < |r|
          ensures r[i] != r[j]
        {
          if i == 0 {
            assert r[j] == rest[j - 1];
            WithoutSubset(users[1..], handle, r[j]);
          }
        }
      }
    }
  }

  /** Removing a handle undoes adding it, whether or not it was already present. */
  lemma WithoutAdded(users: seq<string>, handle: string)
    ensures Without(Added(users, handle), handle) == Without(users, handle)
  {
    if handle !in users {
      WithoutConcat(users, [handle], handle);
    }
  }

  /** The persisted trusted-user list. */
  class TrustedUserStore {
    /** The value under the trusted-users storage key, None while the key is unset. The JSON
        encoding on write and decoding on read is taken as the identity. */
    var saved: Option<seq<string>>

    /** A store whose key has never been written. */
    constructor ()
      ensures saved == None
    {
      saved := None;
    }

    /** The list `getTrustedUsers` returns: the stored list, or the empty list when nothing is
        stored. */
    function Users(): seq<string>
      reads this
    {
      if saved.None? then [] else saved.value
    }

    /** `getTrustedUsers`. */
    method GetTrustedUsers() returns (users: seq<string>)
      ensures users == Users()
    {
      match saved
      case None => users := [];
      case Some(stored) => users := stored;
    }

    /** `saveTrustedUsers`: the list is stored, and is what the next read returns. */
    method SaveTrustedUsers(users: seq<string>)
      modifies this
      ensures saved == Some(users)
      ensures Users() == users
    {
      saved := Some(users);
    }

    /** `addTrustedUser`: when the handle is already listed nothing is written; otherwise the
        handle is appended and the list written back. */
    method AddTrustedUser(handle: string)
      modifies this
      ensures handle in old(Users()) ==> saved == old(saved)
      ensures handle !in old(Users()) ==> saved == Some(old(Users()) + [handle])
      ensures Users() == Added(old(Users()), handle)
    {
      var users := GetTrustedUsers();
      if handle !in users {
        users := users + [handle];
        SaveTrustedUsers(users);
      }
    }

    /** `removeTrustedUser`: the filtered list is always written back, even when nothing was
        removed. */
    method RemoveTrustedUser(handle: string)
      modifies this
      ensures saved == Some(Without(old(Users()), handle))
      ensures handle !in Users()
    {
      var users := GetTrustedUsers();
      var updatedUsers := Without(users, handle);
      SaveTrustedUsers(updatedUsers);
    }
  }

  /** Adding alice, bob and alice again lists each once, in the order first added; removing
      alice leaves bob. */
  method StoreScenario()
  {
    var store := new TrustedUserStore();
    store.AddTrustedUser("alice");
    assert store.Users() == ["alice"];
    store.AddTrustedUser("bob");
    assert store.Users() == ["alice", "bob"];
    store.AddTrustedUser("alice");
    assert store.Users() == ["alice", "bob"];
    store.RemoveTrustedUser("alice");
    WithoutAbsent(["bob"], "alice");
    assert ["alice", "bob"][1..] == ["bob"];
    assert store.Users() == ["bob"];
  }
}
