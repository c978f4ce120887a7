/** The user table of the console (`src/components/UsersTable.jsx`): the
    list of checked user ids, the "select all" checkbox kept in step with it
    by an effect, and the badge colour of a call status. */
module UsersTable {
  import opened Wrappers
  import opened Seqs
  import opened Records

  // ---------------------------------------------------------------------
  // Call-status badges

  const CompletedBadge := "bg-green-100 text-green-800"
  const PendingBadge := "bg-yellow-100 text-yellow-800"
  const FailureBadge := "bg-red-100 text-red-800"
  /** The badge of any status the lookup table does not know. */
  const DefaultBadge := "bg-gray-100 text-gray-800"

  /** The statuses the badge table has an entry for. */
  const KnownStatuses: set<string> := {"completed", "pending", "busy", "failed", "no-answer"}

  /** The `statusClasses` table. */
  const StatusClasses: map<string, string> := map[
    "completed" := CompletedBadge,
    "pending" := PendingBadge,
    "busy" := FailureBadge,
    "failed" := FailureBadge,
    "no-answer" := FailureBadge
  ]

  /** `statusClasses[user.call_status] ?? default`: a missing status and
      any status outside the table both get the grey badge. */
  function StatusClass(status: Option<string>): (cls: string)
    ensures status == Some("completed") ==> cls == CompletedBadge
    ensures status == Some("pending") ==> cls == PendingBadge
    ensures status == Some("busy") || status == Some("failed") || status == Some("no-answer")
            ==> cls == FailureBadge
    ensures cls == DefaultBadge <==> !(status.Some? && status.value in KnownStatuses)
  {
    match status
    case Some(s) => if s in StatusClasses then StatusClasses[s] else DefaultBadge
    case None => DefaultBadge
  }

  // ---------------------------------------------------------------------
  // The selection as a list of ids

  /** `prev.filter((id) => id !== userId)`: every occurrence of `x` is
      dropped, everything else is kept in its order. */
  function Without(s: seq<UserId>, x: UserId): (r: seq<UserId>)
    ensures x !in r
    ensures forall y :: y != x ==> (y in r <==> y in s)
    ensures IsSubsequence(r, s)
    ensures |r| == |s| - Count(s, x)
  {
    if s == [] then []
    else if s[0] == x then Without(s[1..], x)
    else [s[0]] + Without(s[1..], x)
  }

  /** The new selection computed by `handleCheckboxChange`. */
  function Toggle(s: seq<UserId>, x: UserId): (r: seq<UserId>)
    ensures x in r <==> x !in s
    ensures forall y :: y != x ==> (y in r <==> y in s)
    ensures x in s ==> IsSubsequence(r, s) && |r| == |s| - Count(s, x) && |r| < |s|
    ensures x !in s ==> r == s + [x]
  {
    CountZeroIffAbsent(s, x);
    if x in s then Without(s, x) else s + [x]
  }

  /** `users.map((user) => user.user_id)`. */
  function UserIds(users: seq<User>): (ids: seq<UserId>)
    ensures |ids| == |users|
    ensures forall i :: 0 <= i < |users| ==> ids[i] == users[i].userId
  {
    if users == [] then [] else [users[0].userId] + UserIds(users[1..])
  }

  /** The condition under which the effect ticks the "select all" box: the
      selection is as long as the list of shown users, which is not empty.
      Only the lengths are compared, not the ids. */
  predicate SyncFlag(selected: seq<UserId>, users: seq<User>)
  {
    |selected| == |users| && |users| > 0
  }

  /** The selection after one toggle per element of `xs`, left to right. */
  function ToggleAll(s: seq<UserId>, xs: seq<UserId>): seq<UserId>
    decreases |xs|
  {
    if xs == [] then s else ToggleAll(Toggle(s, xs[0]), xs[1..])
  }

  // ---------------------------------------------------------------------
  // Properties of toggling

  /** Removing `x` from a list that ends in a fresh `x` gives back the list. */
  lemma {:induction false} WithoutAppended(s: seq<UserId>, x: UserId)
    requires x !in s
    ensures Without(s + [x], x) == s
  {
    if s == [] {
      assert [x][1..] == [];
    } else {
      assert (s + [x])[1..] == s[1..] + [x];
      WithoutAppended(s[1..], x);
      assert s == [s[0]] + s[1..];
    }
  }

  /** A subsequence of a duplicate-free list is duplicate-free. */
  lemma {:induction false} SubsequenceDistinct(a: seq<UserId>, b: seq<UserId>)
    requires IsSubsequence(a, b) && Distinct(b)
    ensures Distinct(a)
    decreases |b|
  {
    if a != [] {
      assert Distinct(b[1..]) by {
        forall i, j | 0 <= i < j < |b| - 1 ensures b[1..][i] != b[1..][j] {
          assert b[1..][i] == b[i + 1] && b[1..][j] == b[j + 1];
        }
      }
      if a[0] == b[0] {
        SubsequenceDistinct(a[1..], b[1..]);
        forall j | 0 < j < |a| ensures a[0] != a[j] {
          assert a[j] in a[1..] by { assert a[j] == a[1..][j - 1]; }
          SubsequenceMembers(a[1..], b[1..], a[j]);
          assert forall k :: 0 <= k < |b| - 1 ==> b[1..][k] == b[k + 1];
        }
      } else {
        SubsequenceDistinct(a, b[1..]);
      }
    }
  }

  /** Toggling keeps a duplicate-free selection duplicate-free. */
  lemma ToggleKeepsDistinct(s: seq<UserId>, x: UserId)
    requires Distinct(s)
    ensures Distinct(Toggle(s, x))
  {
    if x in s {
      SubsequenceDistinct(Toggle(s, x), s);
    }
  }

  /** Toggling an absent id twice restores the exact list. */
  lemma ToggleTwiceAbsent(s: seq<UserId>, x: UserId)
    requires x !in s
    ensures Toggle(Toggle(s, x), x) == s
  {
    WithoutAppended(s, x);
  }

  /** Toggling a present id twice restores the same ids, with every former
      occurrence of `x` replaced by one at the end. */
  lemma ToggleTwicePresent(s: seq<UserId>, x: UserId)
    requires x in s
    ensures Toggle(Toggle(s, x), x) == Without(s, x) + [x]
    ensures forall y :: y in Toggle(Toggle(s, x), x) <==> y in s
  {
  }

  /** After any series of toggles, an id is selected exactly when it was
      selected before and toggled an even number of times, or was not
      selected and toggled an odd number of times. */
  lemma {:induction false} ToggleAllParity(s: seq<UserId>, xs: seq<UserId>, y: UserId)
    ensures y in ToggleAll(s, xs) <==> ((y in s) != (Count(xs, y) % 2 == 1))
    decreases |xs|
  {
    if xs != [] {
      var t := Toggle(s, xs[0]);
      ToggleAllParity(t, xs[1..], y);
      assert ToggleAll(s, xs) == ToggleAll(t, xs[1..]);
      var c := Count(xs[1..], y);
      if xs[0] == y {
        assert Count(xs, y) == c + 1;
        assert (y in t) == (y !in s);
        assert (c + 1) % 2 == 1 <==> c % 2 != 1;
      } else {
        assert Count(xs, y) == c;
        assert (y in t) == (y in s);
      }
    }
  }

  // ---------------------------------------------------------------------
  // Properties of the "select all" flag

  /** Clicking the header checkbox and letting the effect run: the box ends
      up ticked exactly when it was clear and some user is shown. */
  lemma SelectAllThenSync(selectAll: bool, users: seq<User>)
    ensures SyncFlag(if selectAll then [] else UserIds(users), users) <==> !selectAll && |users| > 0
  {
  }

  /** When the selection is duplicate-free and holds only ids of shown
      users, the length test does mean that every shown user is selected. */
  lemma SyncFlagMeansAllShownSelected(selected: seq<UserId>, users: seq<User>)
    requires Distinct(selected)
    requires forall id :: id in selected ==> id in UserIds(users)
    ensures SyncFlag(selected, users) ==> forall u :: u in users ==> u.userId in selected
  {
    if SyncFlag(selected, users) {
      var ids := UserIds(users);
      var a := set id | id in selected;
      var b := set id | id in ids;
      DistinctCardinality(selected);
      CardinalityAtMostLength(ids);
      assert a <= b;
      assert b == a + (b - a);
      assert |b - a| == 0;
      forall u | u in users ensures u.userId in selected {
        var i :| 0 <= i < |users| && users[i] == u;
        assert ids[i] in b;
      }
    }
  }

  /** Without those conditions the length test can tick "select all" while
      a shown user is unchecked: one id checked in another folder's view,
      then a view showing one different user. */
  lemma SyncFlagIgnoresIdentity()
    ensures exists selected: seq<UserId>, users: seq<User> ::
              SyncFlag(selected, users) && users[0].userId !in selected
  {
    var users := [User("b", "B", "+1", None, None)];
    assert SyncFlag(["a"], users) && users[0].userId !in ["a"];
  }

  // ---------------------------------------------------------------------
  // The component state

  /** The state of one mounted table: the `users` prop and the two state
      fields `selectedUserIds` and `selectAll`. */
  class Table {
    var users: seq<User>
    var selectedUserIds: seq<UserId>
    var selectAll: bool

    /** Mounting: nothing selected, box clear (the mount-time run of the
        flag effect leaves it clear, since the selection is empty). */
    constructor (users: seq<User>)
      ensures this.users == users && selectedUserIds == [] && !selectAll
    {
      this.users := users;
      selectedUserIds := [];
      selectAll := false;
    }

    /** Row checkbox: toggles the id; the flag is left to the effect. */
    method HandleCheckboxChange(userId: UserId)
      modifies this`selectedUserIds
      ensures selectedUserIds == Toggle(old(selectedUserIds), userId)
      ensures userId in selectedUserIds <==> userId !in old(selectedUserIds)
    {
      selectedUserIds := Toggle(selectedUserIds, userId);
    }

    /** Header checkbox: clears the selection if the box was ticked,
        otherwise selects every shown user in order; then negates the box. */
    method HandleSelectAllChange()
      modifies this`selectedUserIds, this`selectAll
      ensures old(selectAll) ==> selectedUserIds == []
      ensures !old(selectAll) ==> selectedUserIds == UserIds(users)
      ensures selectAll == !old(selectAll)
    {
      if selectAll {
        selectedUserIds := [];
      } else {
        selectedUserIds := UserIds(users);
      }
      selectAll := !selectAll;
    }

    /** The two effects that run after a render in which the selection
        changed: the parent's callback, when there is one, receives the
        selection unchanged, and the box is re-synced by the length test. */
    method SelectionEffects(hasListener: bool) returns (notified: Option<seq<UserId>>)
      modifies this`selectAll
      ensures hasListener ==> notified == Some(selectedUserIds)
      ensures !hasListener ==> notified == None
      ensures selectAll <==> SyncFlag(selectedUserIds, users)
    {
      notified := if hasListener then Some(selectedUserIds) else None;
      selectAll := |selectedUserIds| == |users| && |users| > 0;
    }

    /** The parent re-renders with a new `users` prop (a new folder view or
        a refresh): only the flag effect depends on it, so the selection is
        kept as it is. */
    method ReceiveUsers(newUsers: seq<User>)
      modifies this`users, this`selectAll
      ensures users == newUsers
      ensures selectAll <==> SyncFlag(selectedUserIds, newUsers)
    {
      users := newUsers;
      selectAll := |selectedUserIds| == |users| && |users| > 0;
    }
  }
}
