/** What every run of the chat server keeps: connections and table agree, and replies follow the history. */
module ChatSessions {
  import opened ChatTable
  import opened ChatProtocol
  import opened Sequences

  /** The row is idle, or belongs to a connection that has logged in under its name. */
  ghost predicate RowOk(s: State, i: nat)
    requires i < |s.rows|
  {
    var r := s.rows[i];
    || (r.status == 0 && r.sockfd == -1)
    || (r.status == 1 && r.sockfd in s.cons && s.cons[r.sockfd].state != REQUEST && s.cons[r.sockfd].name == r.name)
  }

  /** The row `i` is the logged-in row of connection `fd`. */
  ghost predicate Owns(s: State, fd: int, i: nat) {
    i < |s.rows| && s.rows[i].status == 1 && s.rows[i].sockfd == fd
  }

  /** A logged-in connection has a row. */
  ghost predicate ConOk(s: State, fd: int)
    requires fd in s.cons
  {
    fd >= 0 && (s.cons[fd].state != REQUEST ==> exists i: nat :: Owns(s, fd, i))
  }

  ghost predicate Distinct(rows: seq<Row>) {
    forall i, j :: 0 <= i < j < |rows| ==> rows[i].name != rows[j].name
  }

  ghost predicate Good(s: State) {
    && Distinct(s.rows)
    && (forall i: nat :: i < |s.rows| ==> RowOk(s, i))
    && (forall fd :: fd in s.cons ==> ConOk(s, fd))
    && (!s.running ==> s.cons == map[])
  }

  /** A server started on a table in which nobody is logged in. */
  ghost predicate AllIdle(s: State) {
    s.running && s.cons == map[] && Distinct(s.rows) &&
    forall i :: 0 <= i < |s.rows| ==> s.rows[i].status == 0 && s.rows[i].sockfd == -1
  }

  // ----- one event -----

  lemma RowsOfDistinct(s: State, i: nat, j: nat)
    requires Distinct(s.rows) && i < |s.rows| && j < |s.rows| && s.rows[i].name == s.rows[j].name
    ensures i == j
  {
  }

  lemma AcceptGood(s: State, fd: int)
    requires Good(s) && Enabled(s, Accept(fd))
    ensures Good(After(s, Accept(fd)))
  {
    var t := After(s, Accept(fd));
    forall i: nat | i < |t.rows| ensures RowOk(t, i) {
      assert RowOk(s, i);
    }
    forall f | f in t.cons ensures ConOk(t, f) {
      if f != fd {
        assert ConOk(s, f);
        if s.cons[f].state != REQUEST {
          var i: nat :| Owns(s, f, i);
          assert Owns(t, f, i);
        }
      }
    }
  }

  /** Switching one's own connection between states that do not touch the login keeps the agreement. */
  lemma SameLoginGood(s: State, fd: int, con: Con)
    requires Good(s) && s.running && fd in s.cons
    requires con.state == REQUEST <==> s.cons[fd].state == REQUEST
    requires con.state != REQUEST ==> con.name == s.cons[fd].name
    ensures Good(s.(cons := s.cons[fd := con]))
  {
    var t := s.(cons := s.cons[fd := con]);
    forall i: nat | i < |t.rows| ensures RowOk(t, i) {
      assert RowOk(s, i);
    }
    forall f | f in t.cons ensures ConOk(t, f) {
      assert ConOk(s, f);
      if s.cons[f].state != REQUEST {
        var i: nat :| Owns(s, f, i);
        assert Owns(t, f, i);
      }
    }
  }

  /** A row that is logged in is not the idle row of `name`. */
  lemma OtherRow(s: State, f: int, i: nat, name: string)
    requires Good(s) && Owns(s, f, i)
    requires FirstRow(s.rows, name) >= 0 ==> s.rows[FirstRow(s.rows, name)].status == 0
    ensures s.rows[i].name != name
  {
    var r := FirstRow(s.rows, name);
  }

  /** A login or registration gives the connection its one row. */
  lemma LoginGood(s: State, fd: int, name: string, pass: string)
    requires Good(s) && s.running && fd in s.cons && s.cons[fd].state == REQUEST
    requires FirstRow(s.rows, name) >= 0 ==> s.rows[FirstRow(s.rows, name)].status == 0
    ensures var rows := if FirstRow(s.rows, name) >= 0 then WithStatus(s.rows, name, 1, fd)
                        else s.rows + [Row(name, pass, 1, fd)];
            Good(s.(rows := rows, cons := s.cons[fd := Con(name, AUTHENTICATED)]))
  {
    var r := FirstRow(s.rows, name);
    var rows := if r >= 0 then WithStatus(s.rows, name, 1, fd) else s.rows + [Row(name, pass, 1, fd)];
    var t := s.(rows := rows, cons := s.cons[fd := Con(name, AUTHENTICATED)]);
    var mine := if r >= 0 then r else |s.rows|;
    assert Owns(t, fd, mine);
    forall i: nat | i < |t.rows| ensures RowOk(t, i) {
      if i < |s.rows| {
        assert RowOk(s, i);
        if r >= 0 && s.rows[i].name == name {
          RowsOfDistinct(s, i, r);
        }
      }
    }
    forall f | f in t.cons ensures ConOk(t, f) {
      if f != fd {
        assert ConOk(s, f);
        if s.cons[f].state != REQUEST {
          var i: nat :| Owns(s, f, i);
          OtherRow(s, f, i, name);
          assert Owns(t, f, i);
        }
      } else {
        assert ConOk(s, fd);
      }
    }
  }

  /** The one row of a logged-in connection bears the connection's name. */
  lemma OwnerNamed(s: State, fd: int, i: nat)
    requires Good(s) && fd in s.cons && Owns(s, fd, i)
    ensures s.cons[fd].state != REQUEST && s.rows[i].name == s.cons[fd].name
  {
    assert RowOk(s, i);
    assert ConOk(s, fd);
  }

  /** A departure makes exactly the departing connection's row idle, password kept, and every other row stays. */
  lemma DepartedGood(s: State, fd: int)
    requires Good(s) && s.running && fd in s.cons && s.cons[fd].state != REQUEST
    ensures Good(Departed(s, fd)) && |Departed(s, fd).rows| == |s.rows|
    ensures forall i: nat :: i < |s.rows| ==>
            Departed(s, fd).rows[i] == if Owns(s, fd, i) then s.rows[i].(status := 0, sockfd := -1) else s.rows[i]
    ensures exists i: nat :: Owns(s, fd, i)
  {
    var t, name := Departed(s, fd), s.cons[fd].name;
    assert ConOk(s, fd);
    var mine: nat :| Owns(s, fd, mine);
    OwnerNamed(s, fd, mine);
    forall i: nat | i < |t.rows|
      ensures RowOk(t, i)
      ensures t.rows[i] == if Owns(s, fd, i) then s.rows[i].(status := 0, sockfd := -1) else s.rows[i]
    {
      assert RowOk(s, i);
      if Owns(s, fd, i) {
        OwnerNamed(s, fd, i);
      } else if s.rows[i].name == name {
        RowsOfDistinct(s, i, mine);
      }
    }
    forall f | f in t.cons ensures ConOk(t, f) {
      assert ConOk(s, f);
      if s.cons[f].state != REQUEST {
        var i: nat :| Owns(s, f, i);
        if s.rows[i].name == name {
          RowsOfDistinct(s, i, mine);
        }
        assert Owns(t, f, i);
      }
    }
  }

  lemma ForgottenGood(s: State, fd: int)
    requires Good(s) && s.running && fd in s.cons && s.cons[fd].state == REQUEST
    ensures Good(s.(cons := s.cons - {fd}))
  {
    var t := s.(cons := s.cons - {fd});
    forall i: nat | i < |t.rows| ensures RowOk(t, i) {
      assert RowOk(s, i);
    }
    forall f | f in t.cons ensures ConOk(t, f) {
      assert ConOk(s, f);
      if s.cons[f].state != REQUEST {
        var i: nat :| Owns(s, f, i);
        assert Owns(t, f, i);
      }
    }
  }

  /** Shutting down leaves every row idle: a logged-in row always has a descriptor to match on. */
  lemma ShutdownIdle(s: State)
    requires Good(s) && Enabled(s, Shutdown)
    ensures AllIdle(After(After(s, Shutdown), Restart))
    ensures Good(After(s, Shutdown))
  {
    var t := After(s, Shutdown);
    forall i: nat | i < |t.rows| ensures t.rows[i].status == 0 && t.rows[i].sockfd == -1 {
      assert RowOk(s, i);
      if s.rows[i].status == 1 {
        assert ConOk(s, s.rows[i].sockfd);
      }
    }
    assert forall i: nat :: i < |t.rows| ==> RowOk(t, i);
  }

  lemma RequestGood(s: State, e: Event)
    requires Good(s) && Enabled(s, e) && e.Request?
    ensures Good(After(s, e))
  {
    var r := FirstRow(s.rows, e.name);
    var (rows, res) := Check(s.rows, e.option, e.name, e.pass, e.fd);
    if res == SUCCESS {
      LoginGood(s, e.fd, e.name, e.pass);
    } else {
      SameLoginGood(s, e.fd, Con(e.name, REQUEST));
    }
  }

  /** Every event keeps connections and table in agreement. */
  lemma EventGood(s: State, e: Event)
    requires Good(s) && Enabled(s, e)
    ensures Good(After(s, e))
  {
    match e
    case Accept(fd) => AcceptGood(s, fd);
    case Request(_, _, _, _) => RequestGood(s, e);
    case Choice(fd, option) =>
      if option == 3 {
        DepartedGood(s, fd);
      } else {
        SameLoginGood(s, fd, s.cons[fd].(state := ONLINE));
      }
    case Line(_, _) =>
    case HangUp(fd) =>
      if s.cons[fd].state == REQUEST {
        ForgottenGood(s, fd);
      } else {
        DepartedGood(s, fd);
      }
    case Shutdown => ShutdownIdle(s);
    case Restart =>
      var t := After(s, e);
      forall i: nat | i < |t.rows| ensures RowOk(t, i) {
        assert RowOk(s, i);
      }
  }

  // ----- whole runs -----

  ghost predicate Legal(s: State, events: seq<Event>)
    decreases |events|, 0
  {
    events == [] ||
    (Legal(s, events[..|events| - 1]) && Enabled(Final(s, events[..|events| - 1]), events[|events| - 1]))
  }

  /** The state after a run. */
  ghost function Final(s: State, events: seq<Event>): State
    requires Legal(s, events)
    decreases |events|, 1
  {
    if events == [] then s
    else After(Final(s, events[..|events| - 1]), events[|events| - 1])
  }

  lemma {:induction false} RunGood(s: State, events: seq<Event>)
    requires AllIdle(s) && Legal(s, events)
    ensures Good(Final(s, events))
    decreases |events|
  {
    if events == [] {
      assert forall i: nat :: i < |s.rows| ==> RowOk(s, i);
    } else {
      var init := events[..|events| - 1];
      RunGood(s, init);
      EventGood(Final(s, init), events[|events| - 1]);
    }
  }

  ghost predicate LoggedIn(s: State, fd: int) {
    fd in s.cons && s.cons[fd].state != REQUEST
  }

  /** Logged-in connections and status-1 rows correspond one to one, with equal names and descriptors;
      every other row is idle. */
  lemma Correspondence(s: State, events: seq<Event>)
    requires AllIdle(s) && Legal(s, events)
    ensures var t := Final(s, events);
            && (forall fd :: LoggedIn(t, fd) ==> exists i: nat :: Owns(t, fd, i) && t.rows[i].name == t.cons[fd].name)
            && (forall fd, i: nat, j: nat :: Owns(t, fd, i) && Owns(t, fd, j) ==> i == j)
            && (forall i: nat :: i < |t.rows| ==>
                 || (t.rows[i].status == 0 && t.rows[i].sockfd == -1)
                 || (t.rows[i].status == 1 && LoggedIn(t, t.rows[i].sockfd)))
  {
    var t := Final(s, events);
    RunGood(s, events);
    forall fd | LoggedIn(t, fd) ensures exists i: nat :: Owns(t, fd, i) && t.rows[i].name == t.cons[fd].name {
      assert ConOk(t, fd);
      var i: nat :| Owns(t, fd, i);
      OwnerNamed(t, fd, i);
    }
    forall fd, i: nat, j: nat | Owns(t, fd, i) && Owns(t, fd, j) ensures i == j {
      assert RowOk(t, i) && RowOk(t, j);
      RowsOfDistinct(t, i, j);
    }
    forall i: nat | i < |t.rows|
      ensures || (t.rows[i].status == 0 && t.rows[i].sockfd == -1)
              || (t.rows[i].status == 1 && LoggedIn(t, t.rows[i].sockfd))
    {
      assert RowOk(t, i);
    }
  }

  // ----- who receives a broadcast -----

  lemma {:induction false} RecipientsMeans(rows: seq<Row>, fd: int, x: int)
    ensures x in Recipients(rows, fd) <==>
            x != fd && exists i: nat :: i < |rows| && rows[i].status == 1 && rows[i].sockfd == x
    decreases |rows|
  {
    if rows != [] {
      var n := |rows| - 1;
      RecipientsMeans(rows[..n], fd, x);
      if i: nat :| i < n && rows[i].status == 1 && rows[i].sockfd == x {
        assert rows[..n][i] == rows[i];
      }
    }
  }

  function Hears(fd: int): Row -> bool {
    (row: Row) => row.status == 1 && row.sockfd != fd
  }

  function DescriptorIs(): (Row, int) -> bool {
    (row: Row, fd: int) => row.sockfd == fd
  }

  /** The recipients are the descriptors of the rows with status 1, the sender's excepted, in table order. */
  lemma {:induction false} RecipientsInOrder(rows: seq<Row>, fd: int) returns (at: seq<nat>)
    ensures Collects(rows, Hears(fd), at, DescriptorIs(), Recipients(rows, fd))
    decreases |rows|
  {
    at := [];
    if rows != [] {
      var n := |rows| - 1;
      var init, row := rows[..n], rows[n];
      var before := RecipientsInOrder(init, fd);
      InitAndLast(rows);
      CollectsSnoc(init, row, Hears(fd), before, DescriptorIs(), Recipients(init, fd), row.sockfd);
      at := PickedWith(init, row, Hears(fd), before);
    }
  }

  ghost predicate NoRepeats(to: seq<int>) {
    forall a, b :: 0 <= a < b < |to| ==> to[a] != to[b]
  }

  /** No two logged-in rows share a descriptor. */
  ghost predicate OneRowEach(rows: seq<Row>) {
    forall i, j :: 0 <= i < j < |rows| && rows[i].status == 1 && rows[j].status == 1 ==>
      rows[i].sockfd != rows[j].sockfd
  }

  lemma {:induction false} RecipientsOnce(rows: seq<Row>, fd: int)
    requires OneRowEach(rows)
    ensures NoRepeats(Recipients(rows, fd))
    decreases |rows|
  {
    if rows != [] {
      var n := |rows| - 1;
      RecipientsOnce(rows[..n], fd);
      RecipientsMeans(rows[..n], fd, rows[n].sockfd);
    }
  }

  /** A broadcast goes exactly once to every other logged-in connection and to nobody else. */
  lemma BroadcastReaches(s: State, fd: int)
    requires Good(s)
    ensures forall x :: x in Recipients(s.rows, fd) <==> x != fd && LoggedIn(s, x)
    ensures NoRepeats(Recipients(s.rows, fd))
  {
    forall x ensures x in Recipients(s.rows, fd) <==> x != fd && LoggedIn(s, x) {
      RecipientsMeans(s.rows, fd, x);
      if i: nat :| i < |s.rows| && s.rows[i].status == 1 && s.rows[i].sockfd == x {
        assert RowOk(s, i);
      }
      if LoggedIn(s, x) {
        assert ConOk(s, x);
        var i: nat :| Owns(s, x, i);
      }
    }
    forall i, j | 0 <= i < j < |s.rows| && s.rows[i].status == 1 && s.rows[j].status == 1
      ensures s.rows[i].sockfd != s.rows[j].sockfd
    {
      assert RowOk(s, i) && RowOk(s, j);
    }
    RecipientsOnce(s.rows, fd);
  }

  lemma {:induction false} UpdateKeepsRecipients(rows: seq<Row>, name: string, fd: int)
    requires forall i :: 0 <= i < |rows| && rows[i].name == name && rows[i].status == 1 ==> rows[i].sockfd == fd
    ensures Recipients(WithStatus(rows, name, 0, -1), fd) == Recipients(rows, fd)
    decreases |rows|
  {
    if rows != [] {
      var n := |rows| - 1;
      assert WithStatus(rows, name, 0, -1)[..n] == WithStatus(rows[..n], name, 0, -1);
      UpdateKeepsRecipients(rows[..n], name, fd);
    }
  }

  /** Announcing a departure before or after the table update reaches the same connections. */
  lemma EitherOrderSame(s: State, fd: int, msg: string)
    requires Good(s) && LoggedIn(s, fd)
    ensures Broadcast(WithStatus(s.rows, s.cons[fd].name, 0, -1), fd, msg) == Broadcast(s.rows, fd, msg)
  {
    var name := s.cons[fd].name;
    assert ConOk(s, fd);
    var mine: nat :| Owns(s, fd, mine);
    OwnerNamed(s, fd, mine);
    forall i | 0 <= i < |s.rows| && s.rows[i].name == name && s.rows[i].status == 1 ensures s.rows[i].sockfd == fd {
      RowsOfDistinct(s, i, mine);
    }
    UpdateKeepsRecipients(s.rows, name, fd);
  }

  /** What the event sends to others than `fd` is this text, once to each other logged-in connection. */
  ghost predicate OthersHear(s: State, e: Event, fd: int, text: string)
    requires Enabled(s, e)
  {
    && (forall x :: x != fd ==> multiset(Sends(s, e))[Sent(x, Text(text))] == if LoggedIn(s, x) then 1 else 0)
    && forall m :: m in Sends(s, e) && m.fd != fd ==> m.payload == Text(text)
  }

  /** The sender itself gets nothing. */
  ghost predicate SenderHearsNothing(s: State, e: Event, fd: int)
    requires Enabled(s, e)
  {
    forall m :: m in Sends(s, e) ==> m.fd != fd
  }

  /** The sender gets one reply of success, before anything is sent to others. */
  ghost predicate SenderIsAnswered(s: State, e: Event, fd: int)
    requires Enabled(s, e)
  {
    var sent := Sends(s, e);
    |sent| > 0 && sent[0] == Sent(fd, Reply(SUCCESS)) && forall k :: 1 <= k < |sent| ==> sent[k].fd != fd
  }

  /** Everything one event makes the server send, `name` being that of the sender's row. */
  ghost predicate SaidBy(s: State, e: Event, name: string)
    requires Enabled(s, e)
  {
    match e
    case Choice(fd, option) =>
      if option == 3 then OthersHear(s, e, fd, "INFO: " + name + " is offline\r\n") && SenderHearsNothing(s, e, fd)
      else OthersHear(s, e, fd, "INFO: " + name + " is online\r\n") && SenderIsAnswered(s, e, fd)
    case Line(fd, text) => OthersHear(s, e, fd, name + ": " + text + "\r\n") && SenderHearsNothing(s, e, fd)
    case HangUp(fd) => OthersHear(s, e, fd, "INFO: " + name + " is offline\r\n") && SenderHearsNothing(s, e, fd)
    case _ => true
  }

  /** The event is from a logged-in connection. */
  predicate FromSession(s: State, e: Event)
    requires Enabled(s, e)
  {
    e.Choice? || e.Line? || (e.HangUp? && s.cons[e.fd].state != REQUEST)
  }

  /** In every reachable state an option, a line or a hang-up makes the server send exactly the notice or line that
      bears the name of the row owning the sending descriptor, once to each other logged-in connection, and answers
      an option other than leaving; a request is answered to its sender only, and nothing else sends anything. */
  lemma AnnouncementsDelivered(s: State, events: seq<Event>, e: Event)
    requires AllIdle(s) && Legal(s, events) && Enabled(Final(s, events), e)
    ensures var t := Final(s, events);
            if FromSession(t, e) then
              LoggedIn(t, e.fd) && exists i: nat :: Owns(t, e.fd, i) && SaidBy(t, e, t.rows[i].name)
            else if e.Request? then |Sends(t, e)| == 1 && Sends(t, e)[0].fd == e.fd && Sends(t, e)[0].payload.Reply?
            else Sends(t, e) == []
  {
    var t := Final(s, events);
    RunGood(s, events);
    if FromSession(t, e) {
      assert ConOk(t, e.fd);
      var i: nat :| Owns(t, e.fd, i);
      OwnerNamed(t, e.fd, i);
      SessionSays(t, e);
    }
  }

  lemma ChoiceSays(s: State, e: Event)
    requires Good(s) && Enabled(s, e) && e.Choice?
    ensures SaidBy(s, e, s.cons[e.fd].name)
  {
    var name := s.cons[e.fd].name;
    if e.option == 3 {
      BroadcastHeard(s, e.fd, "INFO: " + name + " is offline\r\n");
    } else {
      var text := "INFO: " + name + " is online\r\n";
      BroadcastHeard(s, e.fd, text);
      AnswerFirst(Sent(e.fd, Reply(SUCCESS)), Broadcast(s.rows, e.fd, text));
    }
  }

  /** A reply before a broadcast changes nothing about the texts sent. */
  lemma AnswerFirst(answer: Sent, b: seq<Sent>)
    requires forall m :: m in b ==> m.fd != answer.fd
    ensures forall x, text :: multiset([answer] + b)[Sent(x, Text(text))] ==
                              multiset(b)[Sent(x, Text(text))] + if answer == Sent(x, Text(text)) then 1 else 0
    ensures forall m :: m in [answer] + b ==> m == answer || m in b
    ensures forall k :: 1 <= k < |[answer] + b| ==> ([answer] + b)[k].fd != answer.fd
  {
    forall k | 1 <= k < |[answer] + b| ensures ([answer] + b)[k].fd != answer.fd {
      assert b[k - 1] in b;
    }
  }

  lemma HangUpSays(s: State, e: Event)
    requires Good(s) && Enabled(s, e) && FromSession(s, e) && e.HangUp?
    ensures SaidBy(s, e, s.cons[e.fd].name)
  {
    var text := "INFO: " + s.cons[e.fd].name + " is offline\r\n";
    BroadcastHeard(s, e.fd, text);
    EitherOrderSame(s, e.fd, text);
  }

  lemma LineSays(s: State, e: Event)
    requires Good(s) && Enabled(s, e) && e.Line?
    ensures SaidBy(s, e, s.cons[e.fd].name)
  {
    BroadcastHeard(s, e.fd, s.cons[e.fd].name + ": " + e.text + "\r\n");
  }

  lemma SessionSays(s: State, e: Event)
    requires Good(s) && Enabled(s, e) && FromSession(s, e)
    ensures SaidBy(s, e, s.cons[e.fd].name)
  {
    if e.Choice? {
      ChoiceSays(s, e);
    } else if e.Line? {
      LineSays(s, e);
    } else {
      HangUpSays(s, e);
    }
  }

  /** A broadcast reaches each other logged-in connection once, with that text. */
  lemma BroadcastHeard(s: State, fd: int, text: string)
    requires Good(s)
    ensures var b := Broadcast(s.rows, fd, text);
            && (forall x :: x != fd ==> multiset(b)[Sent(x, Text(text))] == if LoggedIn(s, x) then 1 else 0)
            && (forall m :: m in b ==> m.fd != fd && m.payload == Text(text))
  {
    var b := Broadcast(s.rows, fd, text);
    BroadcastReaches(s, fd);
    forall x | x != fd ensures multiset(b)[Sent(x, Text(text))] == if LoggedIn(s, x) then 1 else 0 {
      BroadcastOnce(s, fd, text, x);
    }
    forall m | m in b ensures m.fd != fd && m.payload == Text(text) {
      var k :| 0 <= k < |b| && b[k] == m;
      assert Recipients(s.rows, fd)[k] in Recipients(s.rows, fd);
    }
  }

  lemma BroadcastOnce(s: State, fd: int, msg: string, x: int)
    requires Good(s)
    ensures multiset(Broadcast(s.rows, fd, msg))[Sent(x, Text(msg))] == if x != fd && LoggedIn(s, x) then 1 else 0
  {
    BroadcastReaches(s, fd);
    SentCount(Recipients(s.rows, fd), msg, x);
  }

  lemma {:induction false} SentCount(to: seq<int>, msg: string, x: int)
    requires NoRepeats(to)
    ensures multiset(Addressed(to, msg))[Sent(x, Text(msg))] == if x in to then 1 else 0
    decreases |to|
  {
    if to != [] {
      var n := |to| - 1;
      SentCount(to[..n], msg, x);
      assert Addressed(to, msg) == Addressed(to[..n], msg) + [Sent(to[n], Text(msg))];
      assert to == to[..n] + [to[n]];
    }
  }
}
