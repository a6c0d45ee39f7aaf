/** The subscriber store of main.py: the users file, how it is read back
    (`load_users`), and the registration that never repeats a chat id
    (`add_user`). */
module UserStore {
  import opened PyText

  /** A subscriber as registered on `/start`; only `chatId` is required. */
  datatype Subscriber = Subscriber(
    chatId: int,
    userId: Option<int>,
    firstName: Option<string>,
    lastName: Option<string>,
    username: Option<string>,
    language: Option<string>)

  /** What the users file holds once decoded. `Unreadable` is a missing or
      undecodable file, `Falsy` any other falsy JSON value (null, false, 0,
      "" or {}), `Single` one subscriber object and `Many` a list. */
  datatype UsersDoc = Unreadable | Falsy | Single(user: Subscriber) | Many(users: seq<Subscriber>)

  /** `load_users`: the subscribers the file holds, as a list. */
  function LoadUsers(doc: UsersDoc): (r: seq<Subscriber>)
    ensures doc.Many? ==> r == doc.users
    ensures doc.Single? ==> r == [doc.user]
    ensures doc.Unreadable? || doc.Falsy? ==> r == []
  {
    match doc
    case Unreadable => []
    case Falsy => []
    case Single(u) => [u]
    case Many(us) => us
  }

  /** `save_users`: the file then holds the list, which loads back unchanged. */
  function SaveUsers(users: seq<Subscriber>): (doc: UsersDoc)
    ensures LoadUsers(doc) == users
  {
    Many(users)
  }

  /** Some entry of `users` has the chat id `id`. */
  predicate Registered(users: seq<Subscriber>, id: int) {
    exists k :: 0 <= k < |users| && users[k].chatId == id
  }

  /** The chat ids present in `users`. */
  function ChatIds(users: seq<Subscriber>): set<int> {
    set k | 0 <= k < |users| :: users[k].chatId
  }

  /** No chat id occurs twice. */
  predicate UniqueChatIds(users: seq<Subscriber>) {
    forall i, j :: 0 <= i < j < |users| ==> users[i].chatId != users[j].chatId
  }

  /** `any(u["chat_id"] == chat_id for u in users)`, stopping at the first hit. */
  method AnyWithChatId(users: seq<Subscriber>, id: int) returns (found: bool)
    ensures found <==> Registered(users, id)
  {
    var i := 0;
    while i < |users|
      invariant 0 <= i <= |users|
      invariant forall k :: 0 <= k < i ==> users[k].chatId != id
    {
      if users[i].chatId == id {
        return true;
      }
      i := i + 1;
    }
    return false;
  }

  /** The list `add_user` leaves behind: `u` appended unless its chat id is
      already present, in which case nothing changes. */
  function Insert(users: seq<Subscriber>, u: Subscriber): (r: seq<Subscriber>)
    ensures r == users <==> Registered(users, u.chatId)
    ensures users <= r && |r| <= |users| + 1
    ensures |r| == |users| + 1 ==> r[|users|] == u
    ensures Registered(r, u.chatId)
    ensures ChatIds(r) == ChatIds(users) + {u.chatId}
    ensures UniqueChatIds(users) ==> UniqueChatIds(r)
  {
    if Registered(users, u.chatId) then users
    else
      var r := users + [u];
      assert r[|users|].chatId == u.chatId;
      assert forall k :: 0 <= k < |users| ==> r[k] == users[k];
      assert ChatIds(r) == ChatIds(users) + {u.chatId};
      r
  }

  /** The users file after `add_user(u)`: rewritten with `u` at the end when
      its chat id is new, untouched (not even rewritten) otherwise. */
  function AddToDoc(doc: UsersDoc, u: Subscriber): (r: UsersDoc)
    ensures LoadUsers(r) == Insert(LoadUsers(doc), u)
    ensures Registered(LoadUsers(doc), u.chatId) ==> r == doc
    ensures !Registered(LoadUsers(doc), u.chatId) ==> r.Many?
  {
    var users := LoadUsers(doc);
    if Registered(users, u.chatId) then doc else SaveUsers(users + [u])
  }

  /** `add_user`: loads the list, appends `u` when no entry has its chat id
      and saves the list; `added` tells which of the two log lines is
      printed. */
  method AddUser(doc: UsersDoc, u: Subscriber) returns (doc': UsersDoc, added: bool)
    ensures added <==> !Registered(LoadUsers(doc), u.chatId)
    ensures doc' == AddToDoc(doc, u)
  {
    var users := LoadUsers(doc);
    var present := AnyWithChatId(users, u.chatId);
    if !present {
      users := users + [u];
      doc' := SaveUsers(users);
    } else {
      doc' := doc;
    }
    added := !present;
  }

  // ---------------------------------------------------------------------
  // Any number of registrations

  /** The list after `add_user` for each of `us` in turn. */
  function InsertAll(users: seq<Subscriber>, us: seq<Subscriber>): seq<Subscriber>
    decreases |us|
  {
    if us == [] then users else InsertAll(Insert(users, us[0]), us[1..])
  }

  lemma {:induction false} InsertAllSnoc(users: seq<Subscriber>, us: seq<Subscriber>, u: Subscriber)
    ensures InsertAll(users, us + [u]) == Insert(InsertAll(users, us), u)
    decreases |us|
  {
    if us != [] {
      assert (us + [u])[1..] == us[1..] + [u];
      InsertAllSnoc(Insert(users, us[0]), us[1..], u);
    } else {
      assert InsertAll(Insert(users, u), []) == Insert(users, u);
    }
  }

  /** Registrations only ever add at the end, never repeat a chat id, and
      leave every chat id submitted present. */
  lemma {:induction false} InsertAllKeeps(users: seq<Subscriber>, us: seq<Subscriber>)
    ensures users <= InsertAll(users, us)
    ensures ChatIds(InsertAll(users, us)) == ChatIds(users) + ChatIds(us)
    ensures UniqueChatIds(users) ==> UniqueChatIds(InsertAll(users, us))
    decreases |us|
  {
    if us != [] {
      InsertAllKeeps(Insert(users, us[0]), us[1..]);
      assert ChatIds(us) == {us[0].chatId} + ChatIds(us[1..]) by {
        forall id | id in ChatIds(us) ensures id in {us[0].chatId} + ChatIds(us[1..]) {
          var k :| 0 <= k < |us| && us[k].chatId == id;
          if k > 0 {
            assert us[1..][k - 1].chatId == id;
          }
        }
        forall id | id in ChatIds(us[1..]) ensures id in ChatIds(us) {
          var k :| 0 <= k < |us[1..]| && us[1..][k].chatId == id;
          assert us[k + 1].chatId == id;
        }
      }
    }
  }

  /** Adding subscribers whose chat ids are all present already changes
      nothing. */
  lemma {:induction false} InsertAllPresent(users: seq<Subscriber>, us: seq<Subscriber>)
    requires forall k :: 0 <= k < |us| ==> Registered(users, us[k].chatId)
    ensures InsertAll(users, us) == users
    decreases |us|
  {
    if us != [] {
      assert Registered(users, us[0].chatId);
      forall k | 0 <= k < |us[1..]| ensures Registered(users, us[1..][k].chatId) {
        assert us[1..][k] == us[k + 1];
      }
      InsertAllPresent(users, us[1..]);
    }
  }

  /** Submitting the same registrations again is a no-op: `add_user` is
      idempotent over any sequence of calls. */
  lemma InsertAllIdempotent(users: seq<Subscriber>, us: seq<Subscriber>)
    ensures InsertAll(InsertAll(users, us), us) == InsertAll(users, us)
  {
    var r := InsertAll(users, us);
    InsertAllKeeps(users, us);
    forall k | 0 <= k < |us| ensures Registered(r, us[k].chatId) {
      assert us[k].chatId in ChatIds(r);
      var j :| 0 <= j < |r| && r[j].chatId == us[k].chatId;
    }
    InsertAllPresent(r, us);
  }

  lemma {:induction false} UniqueCount(users: seq<Subscriber>)
    requires UniqueChatIds(users)
    ensures |ChatIds(users)| == |users|
    decreases |users|
  {
    if users != [] {
      var k := |users| - 1;
      var front := users[..k];
      assert UniqueChatIds(front);
      UniqueCount(front);
      assert ChatIds(users) == ChatIds(front) + {users[k].chatId} by {
        forall id | id in ChatIds(users) ensures id in ChatIds(front) + {users[k].chatId} {
          var j :| 0 <= j < |users| && users[j].chatId == id;
          if j < k {
            assert front[j].chatId == id;
          }
        }
      }
      assert users[k].chatId !in ChatIds(front);
    }
  }

  /** Starting from an empty store, any sequence of registrations leaves
      exactly one entry per distinct chat id submitted. */
  lemma OneEntryPerChatId(us: seq<Subscriber>)
    ensures var r := InsertAll([], us);
            UniqueChatIds(r) && ChatIds(r) == ChatIds(us) && |r| == |ChatIds(us)|
  {
    InsertAllKeeps([], us);
    assert ChatIds([]) == {};
    UniqueCount(InsertAll([], us));
  }
}
