/** One batch of the update listener of main.py (`listen_for_new_users`):
    the offset advances past every update read, and each `/start` message
    registers its sender and gets a greeting followed by the full contest
    listing. */
module Listener {
  import opened PyText
  import opened Formatter
  import opened UserStore

  /** The `from` object of a message. */
  datatype Sender = Sender(
    id: Option<int>,
    firstName: Option<string>,
    lastName: Option<string>,
    username: Option<string>,
    languageCode: Option<string>)

  /** A message: its chat id, its sender (Telegram may omit `from`) and its
      text (absent for messages without text). */
  datatype Message = Message(chatId: int, sender: Option<Sender>, text: Option<string>)

  datatype Update = Update(updateId: int, message: Option<Message>)

  /** One call of `send_message(chat_id, text)`. */
  datatype Send = Send(chatId: int, text: string)

  /** The listener's state after a batch: the next offset, the users file,
      the messages sent, and whether an exception cut the batch short. */
  datatype Outcome = Outcome(offset: int, saved: UsersDoc, sends: seq<Send>, halted: bool)

  const StartCommand: string := "/start"

  /** `msg.get("text", "")`. */
  function TextOf(m: Message): string {
    m.text.GetOr("")
  }

  /** The record built from a `/start` message. */
  function NewSubscriber(chatId: int, s: Sender): Subscriber {
    Subscriber(chatId, s.id, s.firstName, s.lastName, s.username, s.languageCode)
  }

  /** `(first_name + " " + last_name).strip()`, each name read as
      `name or ""`: the joined names with surrounding whitespace removed. */
  function GreetingName(first: Option<string>, last: Option<string>): (r: string)
    ensures Trimmed(r)
  {
    Strip(Or(first, "") + " " + Or(last, ""))
  }

  /** The greeting names the user by the names that are set: nobody for
      neither, the one name for one, both names joined by a space for both
      (names taken without surrounding whitespace). */
  lemma GreetingNameCases(first: Option<string>, last: Option<string>)
    ensures !Truthy(first) && !Truthy(last) ==> GreetingName(first, last) == ""
    ensures Truthy(first) && !Truthy(last) && Trimmed(first.value) ==>
              GreetingName(first, last) == first.value
    ensures !Truthy(first) && Truthy(last) && Trimmed(last.value) ==>
              GreetingName(first, last) == last.value
    ensures Truthy(first) && Truthy(last) && Trimmed(first.value) && Trimmed(last.value) ==>
              GreetingName(first, last) == first.value + " " + last.value
  {
    var f := Or(first, "");
    var l := Or(last, "");
    var joined := f + " " + l;
    assert AllSpace(" ") && AllSpace([]);
    if f == "" && l == "" {
      assert joined == [] + [] + " ";
      StripOf([], [], " ");
    } else if l == "" {
      assert joined == [] + f + " ";
      if Trimmed(f) {
        StripOf([], f, " ");
      }
    } else if f == "" {
      assert joined == " " + l + [];
      if Trimmed(l) {
        StripOf(" ", l, []);
      }
    } else {
      assert joined == [] + joined + [];
      if Trimmed(f) && Trimmed(l) {
        StripOf([], joined, []);
      }
    }
  }

  /** The text sent in reply to `/start`: the greeting, then `listing`, the
      full contest listing. */
  function Welcome(s: Sender, listing: string): (r: string)
    ensures "👋 Hello " <= r
    ensures |listing| <= |r| && r[|r| - |listing|..] == listing
  {
    "👋 Hello " + GreetingName(s.firstName, s.lastName) + "!\n\n" + listing
  }

  /** The reply text for each sender when the full listing is `listing`. The
      batch below is stated for any such `greet` function. */
  function Greet(listing: string): Sender -> string {
    s => Welcome(s, listing)
  }

  /** A `/start` message without a sender: reading `msg["from"]` raises. */
  predicate Fails(u: Update) {
    u.message.Some? && TextOf(u.message.value) == StartCommand && u.message.value.sender.None?
  }

  /** The body of the `for update in ...` loop, applied to one update;
      `greet` gives the text sent in reply to a `/start` from a sender. */
  function Step(st: Outcome, u: Update, greet: Sender -> string): (r: Outcome)
    ensures r.offset == u.updateId + 1
    ensures r.halted == (st.halted || Fails(u))
    ensures !Greeted(u) ==> r.saved == st.saved && r.sends == st.sends
    ensures Greeted(u) ==> |r.sends| == |st.sends| + 1 && st.sends <= r.sends
  {
    var advanced := st.(offset := u.updateId + 1);
    if u.message.None? then advanced
    else
      var m := u.message.value;
      if TextOf(m) != StartCommand then advanced
      else if m.sender.None? then advanced.(halted := true)
      else
        advanced.(saved := AddToDoc(st.saved, NewSubscriber(m.chatId, m.sender.value)),
                  sends := st.sends + [Send(m.chatId, greet(m.sender.value))])
  }

  /** The state after the updates of one `getUpdates` response, starting
      from `offset` and the users file `saved`. Once an update raises, the
      rest of the batch is skipped. */
  function Run(offset: int, saved: UsersDoc, updates: seq<Update>, greet: Sender -> string): (r: Outcome)
    ensures r.halted <==> exists k :: 0 <= k < |updates| && Fails(updates[k])
    decreases |updates|
  {
    if updates == [] then Outcome(offset, saved, [], false)
    else
      var front := updates[..|updates| - 1];
      var before := Run(offset, saved, front, greet);
      assert forall k :: 0 <= k < |front| ==> front[k] == updates[k];
      if before.halted then before else Step(before, updates[|updates| - 1], greet)
  }

  lemma RunSnoc(offset: int, saved: UsersDoc, updates: seq<Update>, i: nat, greet: Sender -> string)
    requires i < |updates|
    ensures var before := Run(offset, saved, updates[..i], greet);
            Run(offset, saved, updates[..i + 1], greet)
            == if before.halted then before else Step(before, updates[i], greet)
  {
    assert updates[..i + 1][..i] == updates[..i];
  }

  lemma {:induction false} RunHaltedStays(offset: int, saved: UsersDoc, updates: seq<Update>, i: nat, greet: Sender -> string)
    requires i <= |updates|
    requires Run(offset, saved, updates[..i], greet).halted
    ensures Run(offset, saved, updates, greet) == Run(offset, saved, updates[..i], greet)
    decreases |updates| - i
  {
    if i < |updates| {
      RunSnoc(offset, saved, updates, i, greet);
      RunHaltedStays(offset, saved, updates, i + 1, greet);
    } else {
      assert updates[..i] == updates;
    }
  }

  /** One batch of `listen_for_new_users`: for each update in order, the
      offset moves past it; a `/start` message registers its sender and is
      answered with the greeting and the full listing. */
  method ProcessBatch(offset0: int, saved0: UsersDoc, updates: seq<Update>, contests: seq<Contest>)
    returns (offset: int, saved: UsersDoc, sends: seq<Send>, halted: bool)
    ensures Outcome(offset, saved, sends, halted) == Run(offset0, saved0, updates, Greet(FullListing(contests)))
  {
    offset, saved, sends, halted := offset0, saved0, [], false;
    ghost var greet := Greet(FullListing(contests));
    var i := 0;
    while i < |updates| && !halted
      invariant 0 <= i <= |updates|
      invariant Outcome(offset, saved, sends, halted) == Run(offset0, saved0, updates[..i], greet)
    {
      var update := updates[i];
      ghost var before := Outcome(offset, saved, sends, halted);
      RunSnoc(offset0, saved0, updates, i, greet);
      offset := update.updateId + 1;
      if update.message.Some? {
        var msg := update.message.value;
        var chatId := msg.chatId;
        var text := msg.text.GetOr("");
        if text == "/start" {
          if msg.sender.None? {
            halted := true;
          } else {
            var fromUser := msg.sender.value;
            var userData := NewSubscriber(chatId, fromUser);
            var added;
            saved, added := AddUser(saved, userData);
            var name := GreetingName(userData.firstName, userData.lastName);
            var personalized := "👋 Hello " + name + "!\n\n";
            personalized := personalized + FullListing(contests);
            assert personalized == greet(fromUser);
            sends := sends + [Send(chatId, personalized)];
          }
        }
      }
      assert Outcome(offset, saved, sends, halted) == Step(before, update, greet);
      i := i + 1;
    }
    if halted {
      RunHaltedStays(offset0, saved0, updates, i, greet);
    } else {
      assert updates[..i] == updates;
    }
  }

  // ---------------------------------------------------------------------
  // What a batch does, stated independently of the loop

  /** A `/start` message whose sender is known: it registers and is answered. */
  predicate Greeted(u: Update) {
    u.message.Some? && TextOf(u.message.value) == StartCommand && u.message.value.sender.Some?
  }

  /** No update of the batch raises. */
  predicate Clean(updates: seq<Update>) {
    forall k :: 0 <= k < |updates| ==> !Fails(updates[k])
  }

  /** What `pick` yields for each update of `updates`, joined in order. */
  function Collect<T>(pick: Update -> seq<T>, updates: seq<Update>): seq<T> {
    if updates == [] then [] else pick(updates[0]) + Collect(pick, updates[1..])
  }

  lemma {:induction false} CollectSnoc<T>(pick: Update -> seq<T>, updates: seq<Update>, u: Update)
    ensures Collect(pick, updates + [u]) == Collect(pick, updates) + pick(u)
    decreases |updates|
  {
    if updates != [] {
      assert (updates + [u])[1..] == updates[1..] + [u];
      CollectSnoc(pick, updates[1..], u);
    } else {
      assert Collect(pick, [u]) == pick(u) + Collect(pick, []);
    }
  }

  /** The subscriber a `/start` message submits, if `u` is one. */
  function Registrant(u: Update): seq<Subscriber> {
    if Greeted(u) then [NewSubscriber(u.message.value.chatId, u.message.value.sender.value)] else []
  }

  /** The reply a `/start` message calls for, if `u` is one: to its chat,
      greeting its sender. */
  function Reply(u: Update, greet: Sender -> string): seq<Send> {
    if Greeted(u) then [Send(u.message.value.chatId, greet(u.message.value.sender.value))] else []
  }

  /** The subscribers the `/start` messages of `updates` submit, in order. */
  function Registrants(updates: seq<Update>): seq<Subscriber> {
    Collect(Registrant, updates)
  }

  /** The replies the `/start` messages of `updates` call for, in order. */
  function Replies(updates: seq<Update>, greet: Sender -> string): seq<Send> {
    Collect(ReplyTo(greet), updates)
  }

  function ReplyTo(greet: Sender -> string): Update -> seq<Send> {
    u => Reply(u, greet)
  }

  lemma CleanFront(updates: seq<Update>, k: nat)
    requires k <= |updates| && Clean(updates)
    ensures Clean(updates[..k])
  {
    forall j | 0 <= j < k ensures !Fails(updates[..k][j]) {
      assert updates[..k][j] == updates[j];
    }
  }

  /** A batch in which nothing raises runs to its end, and the offset ends
      one past the last update id (unchanged for an empty batch). */
  lemma {:induction false} RunCleanOffset(offset: int, saved: UsersDoc, updates: seq<Update>, greet: Sender -> string)
    requires Clean(updates)
    ensures var r := Run(offset, saved, updates, greet);
            && !r.halted
            && r.offset == (if updates == [] then offset else updates[|updates| - 1].updateId + 1)
    decreases |updates|
  {
    if updates != [] {
      var k := |updates| - 1;
      CleanFront(updates, k);
      assert !Fails(updates[k]);
      RunCleanOffset(offset, saved, updates[..k], greet);
    }
  }

  /** One update that does not raise adds its own reply, if any. */
  lemma StepReplies(st: Outcome, u: Update, greet: Sender -> string)
    requires !Fails(u)
    ensures Step(st, u, greet).sends == st.sends + Reply(u, greet)
  {
    if !Greeted(u) {
      assert Step(st, u, greet).sends == st.sends;
    }
  }

  /** One update that does not raise registers its own sender, if any. */
  lemma StepUsers(st: Outcome, u: Update, greet: Sender -> string)
    requires !Fails(u)
    ensures LoadUsers(Step(st, u, greet).saved) == InsertAll(LoadUsers(st.saved), Registrant(u))
  {
    var users := LoadUsers(st.saved);
    if Greeted(u) {
      var sub := NewSubscriber(u.message.value.chatId, u.message.value.sender.value);
      assert LoadUsers(Step(st, u, greet).saved) == Insert(users, sub) by {
        assert Step(st, u, greet).saved == AddToDoc(st.saved, sub);
      }
      assert InsertAll(users, [sub]) == InsertAll(Insert(users, sub), []);
    } else {
      assert Step(st, u, greet).saved == st.saved;
    }
  }

  lemma {:induction false} InsertAllAppend(users: seq<Subscriber>, a: seq<Subscriber>, b: seq<Subscriber>)
    ensures InsertAll(users, a + b) == InsertAll(InsertAll(users, a), b)
    decreases |a|
  {
    if a == [] {
      assert a + b == b;
    } else {
      assert (a + b)[1..] == a[1..] + b;
      InsertAllAppend(Insert(users, a[0]), a[1..], b);
    }
  }

  /** In a batch in which nothing raises, exactly the `/start` messages are
      answered, in order, each in its own chat. */
  lemma {:induction false} RunCleanReplies(offset: int, saved: UsersDoc, updates: seq<Update>, greet: Sender -> string)
    requires Clean(updates)
    ensures Run(offset, saved, updates, greet).sends == Replies(updates, greet)
    decreases |updates|
  {
    if updates != [] {
      var k := |updates| - 1;
      var front, u := updates[..k], updates[k];
      var before := Run(offset, saved, front, greet);
      assert !before.halted && before.sends == Replies(front, greet) && !Fails(u) by {
        CleanFront(updates, k);
        RunCleanOffset(offset, saved, front, greet);
        RunCleanReplies(offset, saved, front, greet);
      }
      assert Run(offset, saved, updates, greet).sends == before.sends + Reply(u, greet) by {
        assert Run(offset, saved, updates, greet) == Step(before, u, greet);
        StepReplies(before, u, greet);
      }
      assert Replies(updates, greet) == Replies(front, greet) + Reply(u, greet) by {
        assert updates == front + [u];
        CollectSnoc(ReplyTo(greet), front, u);
      }
    }
  }

  /** In a batch in which nothing raises, the users file ends up holding what
      registering the senders of the `/start` messages one after another
      gives. */
  lemma {:induction false} RunCleanUsers(offset: int, saved: UsersDoc, updates: seq<Update>, greet: Sender -> string)
    requires Clean(updates)
    ensures LoadUsers(Run(offset, saved, updates, greet).saved)
         == InsertAll(LoadUsers(saved), Registrants(updates))
    decreases |updates|
  {
    if updates == [] {
      assert InsertAll(LoadUsers(saved), []) == LoadUsers(saved);
    } else {
      var k := |updates| - 1;
      var front, u := updates[..k], updates[k];
      var before := Run(offset, saved, front, greet);
      assert !before.halted && !Fails(u)
          && LoadUsers(before.saved) == InsertAll(LoadUsers(saved), Registrants(front)) by {
        CleanFront(updates, k);
        RunCleanOffset(offset, saved, front, greet);
        RunCleanUsers(offset, saved, front, greet);
      }
      assert LoadUsers(Run(offset, saved, updates, greet).saved)
          == InsertAll(LoadUsers(before.saved), Registrant(u)) by {
        assert Run(offset, saved, updates, greet) == Step(before, u, greet);
        StepUsers(before, u, greet);
      }
      assert InsertAll(InsertAll(LoadUsers(saved), Registrants(front)), Registrant(u))
          == InsertAll(LoadUsers(saved), Registrants(updates)) by {
        assert updates == front + [u];
        CollectSnoc(Registrant, front, u);
        InsertAllAppend(LoadUsers(saved), Registrants(front), Registrant(u));
      }
    }
  }

  /** A batch in which update `k` is the first to raise: the offset moves
      past update `k` and no further, and the replies and registrations are
      those of the updates before it; the rest of the batch is dropped. */
  lemma RunFails(offset: int, saved: UsersDoc, updates: seq<Update>, k: nat, greet: Sender -> string)
    requires k < |updates| && Fails(updates[k]) && Clean(updates[..k])
    ensures var r := Run(offset, saved, updates, greet);
            && r.halted
            && r.offset == updates[k].updateId + 1
            && r.sends == Replies(updates[..k], greet)
            && LoadUsers(r.saved) == InsertAll(LoadUsers(saved), Registrants(updates[..k]))
  {
    RunCleanOffset(offset, saved, updates[..k], greet);
    RunCleanReplies(offset, saved, updates[..k], greet);
    RunCleanUsers(offset, saved, updates[..k], greet);
    RunSnoc(offset, saved, updates, k, greet);
    RunHaltedStays(offset, saved, updates, k + 1, greet);
  }

  /** A batch never gives one chat id two entries in the users file. */
  lemma {:induction false} RunKeepsChatIdsUnique(offset: int, saved: UsersDoc, updates: seq<Update>, greet: Sender -> string)
    requires UniqueChatIds(LoadUsers(saved))
    ensures UniqueChatIds(LoadUsers(Run(offset, saved, updates, greet).saved))
    decreases |updates|
  {
    if updates != [] {
      RunKeepsChatIdsUnique(offset, saved, updates[..|updates| - 1], greet);
    }
  }

  /** The sender a subscriber record was built from. */
  function SenderOf(sub: Subscriber): (s: Sender)
    ensures forall chatId: int :: NewSubscriber(chatId, s) == sub.(chatId := chatId)
  {
    Sender(sub.userId, sub.firstName, sub.lastName, sub.username, sub.language)
  }

  /** Replies and registrations pair up: the k-th reply goes to the chat of
      the k-th subscriber registered, and greets that subscriber by name. */
  lemma {:induction false} RepliesMatchRegistrants(updates: seq<Update>, greet: Sender -> string)
    ensures |Replies(updates, greet)| == |Registrants(updates)|
    ensures forall k :: 0 <= k < |Registrants(updates)| ==>
              var sub := Registrants(updates)[k];
              Replies(updates, greet)[k]
              == Send(sub.chatId, greet(SenderOf(sub)))
    decreases |updates|
  {
    if updates != [] {
      RepliesMatchRegistrants(updates[1..], greet);
    }
  }

  /** A batch of `/start` messages and other updates in which nothing
      raises, as the listener runs it: every `/start` registers its sender,
      and the k-th message sent greets the k-th subscriber registered, in
      that subscriber's chat, followed by the full contest listing. */
  lemma CleanBatch(offset: int, saved: UsersDoc, updates: seq<Update>, contests: seq<Contest>)
    requires Clean(updates)
    ensures var r := Run(offset, saved, updates, Greet(FullListing(contests)));
            var subs := Registrants(updates);
            && !r.halted
            && LoadUsers(r.saved) == InsertAll(LoadUsers(saved), subs)
            && |r.sends| == |subs|
            && forall k :: 0 <= k < |subs| ==>
                 r.sends[k] == Send(subs[k].chatId, Welcome(SenderOf(subs[k]), FullListing(contests)))
  {
    var greet := Greet(FullListing(contests));
    RunCleanOffset(offset, saved, updates, greet);
    RunCleanUsers(offset, saved, updates, greet);
    RunCleanReplies(offset, saved, updates, greet);
    RepliesMatchRegistrants(updates, greet);
  }
}
