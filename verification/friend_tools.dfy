/** Friend notification targets (src/tools/FriendTools.ts): the ids of a user's
    accepted friends, minus the user and minus the friends who blocked
    notifications from that user, without duplicates.

    The two queries are not modelled; their result rows are inputs. Ids are values of
    any type compared with strict equality, as `!==` and `includes` compare them. */
module FriendTools {
  import opened Wrappers
  import opened JsValues

  /** A row of the `friend` query. */
  datatype FriendRow<Id> = FriendRow(receiverId: Id, applicantId: Id)

  /** A row of the `friend_notification_settings` query. */
  datatype BlockRow<Id> = BlockRow(userId: Id)

  /** `blocked_friend_notificaiton.map(row => row.user_id)`. */
  function BlockedIds<Id>(rows: seq<BlockRow<Id>>): (ids: seq<Id>)
    ensures |ids| == |rows|
    ensures forall i :: 0 <= i < |rows| ==> ids[i] == rows[i].userId
  {
    seq(|rows|, i requires 0 <= i < |rows| => rows[i].userId)
  }

  /** Whether the reduce callback keeps `id`. */
  predicate Eligible<Id(==)>(userId: Id, blocked: seq<Id>, id: Id)
  {
    id != userId && id !in blocked
  }

  /** What one row contributes to the accumulator: applicant first, then receiver. */
  function RowIds<Id(==)>(userId: Id, blocked: seq<Id>, row: FriendRow<Id>): seq<Id>
  {
    (if Eligible(userId, blocked, row.applicantId) then [row.applicantId] else [])
    + (if Eligible(userId, blocked, row.receiverId) then [row.receiverId] else [])
  }

  /** The accumulator after the `reduce` over `rows`. */
  function Collected<Id(==)>(userId: Id, blocked: seq<Id>, rows: seq<FriendRow<Id>>): seq<Id>
  {
    if rows == [] then []
    else Collected(userId, blocked, rows[..|rows| - 1]) + RowIds(userId, blocked, rows[|rows| - 1])
  }

  /** `Array.from(new Set(s))`: each value once, at the place of its first occurrence. */
  function Dedup<T(==)>(s: seq<T>): (r: seq<T>)
    ensures Distinct(r)
    ensures forall i :: 0 <= i < |r| ==> r[i] in s
    ensures forall i :: 0 <= i < |s| ==> s[i] in r
  {
    if s == [] then []
    else
      var d := Dedup(s[..|s| - 1]);
      assert forall i :: 0 <= i < |s| - 1 ==> s[i] == s[..|s| - 1][i];
      if s[|s| - 1] in d then d else d + [s[|s| - 1]]
  }

  /** Index of the first occurrence of `x` in `s`. */
  function FirstIndex<T(==)>(s: seq<T>, x: T): (i: nat)
    requires x in s
    ensures i < |s| && s[i] == x
    ensures forall k :: 0 <= k < i ==> s[k] != x
  {
    if s[0] == x then 0 else 1 + FirstIndex(s[1..], x)
  }

  lemma FirstIndexPrefix<T>(s: seq<T>, t: seq<T>, x: T)
    requires x in s
    ensures FirstIndex(s + t, x) == FirstIndex(s, x)
  {
    var u := s + t;
    var i := FirstIndex(s, x);
    assert u[i] == x;
    assert forall k :: 0 <= k < i ==> u[k] == s[k];
  }

  /** The de-duplicated list keeps the order of first occurrences. */
  lemma {:induction false} DedupOrder<T>(s: seq<T>)
    ensures forall i, j :: 0 <= i < j < |Dedup(s)| ==>
              FirstIndex(s, Dedup(s)[i]) < FirstIndex(s, Dedup(s)[j])
  {
    if s != [] {
      var init := s[..|s| - 1];
      var last := s[|s| - 1];
      var d := Dedup(init);
      DedupOrder(init);
      assert s == init + [last];
      forall i | 0 <= i < |d| ensures d[i] in init && FirstIndex(s, d[i]) == FirstIndex(init, d[i]) < |init| {
        assert d[i] in init;
        FirstIndexPrefix(init, [last], d[i]);
      }
      var r := Dedup(s);
      if last !in d {
        assert last !in init;
        assert FirstIndex(s, last) == |s| - 1;
        assert r == d + [last];
        forall i, j | 0 <= i < j < |r| ensures FirstIndex(s, r[i]) < FirstIndex(s, r[j]) {
          assert r[i] == d[i];
          if j < |d| {
            assert r[j] == d[j];
          }
        }
      } else {
        assert r == d;
      }
    }
  }

  /** An id is collected exactly when some row names it and it is eligible. */
  lemma {:induction false} CollectedMembers<Id>(userId: Id, blocked: seq<Id>, rows: seq<FriendRow<Id>>, x: Id)
    ensures x in Collected(userId, blocked, rows) <==>
              Eligible(userId, blocked, x) &&
              exists i :: 0 <= i < |rows| && (rows[i].applicantId == x || rows[i].receiverId == x)
  {
    if rows != [] {
      var init := rows[..|rows| - 1];
      CollectedMembers(userId, blocked, init, x);
      if exists i :: 0 <= i < |init| && (init[i].applicantId == x || init[i].receiverId == x) {
        var i :| 0 <= i < |init| && (init[i].applicantId == x || init[i].receiverId == x);
        assert rows[i] == init[i];
      }
      if exists i :: 0 <= i < |rows| && (rows[i].applicantId == x || rows[i].receiverId == x) {
        var i :| 0 <= i < |rows| && (rows[i].applicantId == x || rows[i].receiverId == x);
        if i < |init| {
          assert init[i] == rows[i];
        }
      }
    }
  }

  /** `fetchFriendIds` once both queries have answered. `friends` is `None` when the
      query result is missing. */
  method FetchFriendIds<Id(==)>(userId: Id, blockRows: seq<BlockRow<Id>>, friends: Option<seq<FriendRow<Id>>>)
    returns (ids: seq<Id>)
    ensures friends.None? || friends.value == [] ==> ids == []
    ensures friends.Some? ==> ids == Dedup(Collected(userId, BlockedIds(blockRows), friends.value))
    ensures Distinct(ids)
    ensures userId !in ids
    ensures forall r :: r in blockRows ==> r.userId !in ids
    ensures forall x :: x in ids <==>
              friends.Some? && Eligible(userId, BlockedIds(blockRows), x) &&
              exists i :: 0 <= i < |friends.value| &&
                (friends.value[i].applicantId == x || friends.value[i].receiverId == x)
  {
    var blocked := BlockedIds(blockRows);
    if friends.None? || |friends.value| == 0 {
      return [];
    }
    var rows := friends.value;
    var acc: seq<Id> := [];
    for k := 0 to |rows|
      invariant acc == Collected(userId, blocked, rows[..k])
    {
      assert rows[..k + 1][..k] == rows[..k];
      var friend := rows[k];
      if friend.applicantId != userId && friend.applicantId !in blocked {
        acc := acc + [friend.applicantId];
      }
      if friend.receiverId != userId && friend.receiverId !in blocked {
        acc := acc + [friend.receiverId];
      }
    }
    assert rows[..|rows|] == rows;
    ids := Dedup(acc);
    forall x ensures x in ids <==> x in acc {
    }
    forall x
      ensures x in acc <==>
        Eligible(userId, blocked, x) &&
        exists i :: 0 <= i < |rows| && (rows[i].applicantId == x || rows[i].receiverId == x)
    {
      CollectedMembers(userId, blocked, rows, x);
    }
    forall r | r in blockRows ensures r.userId in blocked {
      var i :| 0 <= i < |blockRows| && blockRows[i] == r;
      assert blocked[i] == r.userId;
    }
  }

  /** The id types as they meet at run time: the user id arrives as text, the rows
      hold numbers. */
  datatype MixedId = Text(text: string) | Number(value: int)

  /** With a text user id and numeric rows, `!==` never matches the user's own row: the
      user's number comes back among the friend ids unless a blocker row names it. */
  lemma OwnNumericIdKept(user: string, n: int, blockRows: seq<BlockRow<MixedId>>, rows: seq<FriendRow<MixedId>>, i: nat)
    requires i < |rows| && (rows[i].applicantId == Number(n) || rows[i].receiverId == Number(n))
    requires Number(n) !in BlockedIds(blockRows)
    ensures Number(n) in Dedup(Collected(Text(user), BlockedIds(blockRows), rows))
  {
    var c := Collected(Text(user), BlockedIds(blockRows), rows);
    CollectedMembers(Text(user), BlockedIds(blockRows), rows, Number(n));
    var j :| 0 <= j < |c| && c[j] == Number(n);
    assert c[j] in Dedup(c);
  }
}
