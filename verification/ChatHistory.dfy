/** Replies as a function of what happened before, without looking at the table. */
module ChatHistory {
  import opened Options
  import opened ChatTable
  import opened ChatProtocol
  import opened ChatSessions

  /** What counts for later replies. */
  datatype Deed =
    | Registered(name: string, pass: string, fd: int)
    | EnteredAs(name: string, fd: int)
    | LeftBy(fd: int)
    | AllLeft

  function Deeds(s: State, e: Event): seq<Deed>
    requires Enabled(s, e)
  {
    match e
    case Request(fd, option, name, pass) =>
      if Check(s.rows, option, name, pass, fd).1 != SUCCESS then []
      else if option == 2 then [Registered(name, pass, fd)]
      else [EnteredAs(name, fd)]
    case Choice(fd, option) => if option == 3 then [LeftBy(fd)] else []
    case HangUp(fd) => if s.cons[fd].state == REQUEST then [] else [LeftBy(fd)]
    case Shutdown => [AllLeft]
    case _ => []
  }

  ghost function History(s: State, events: seq<Event>): seq<Deed>
    requires Legal(s, events)
    decreases |events|
  {
    if events == [] then []
    else
      var init := events[..|events| - 1];
      History(s, init) + Deeds(Final(s, init), events[|events| - 1])
  }

  /** The password of an account: of the original table, or given at registration. */
  function Password(table: seq<Row>, hist: seq<Deed>, name: string): Option<string> {
    if hist == [] then
      var r := FirstRow(table, name);
      if r < 0 then None else Some(table[r].pass)
    else
      match hist[|hist| - 1]
      case Registered(n, pass, _) => if n == name then Some(pass) else Password(table, hist[..|hist| - 1], name)
      case _ => Password(table, hist[..|hist| - 1], name)
  }

  /** The descriptor a name is logged in at, if it is. */
  function Session(hist: seq<Deed>, name: string): Option<int> {
    if hist == [] then None
    else
      var before := Session(hist[..|hist| - 1], name);
      match hist[|hist| - 1]
      case Registered(n, _, fd) => if n == name then Some(fd) else before
      case EnteredAs(n, fd) => if n == name then Some(fd) else before
      case LeftBy(fd) => if before == Some(fd) then None else before
      case AllLeft => None
  }

  /** The reply the history calls for. */
  function Expected(table: seq<Row>, hist: seq<Deed>, option: int, name: string, pass: string): Response {
    match Password(table, hist, name)
    case None => if option == 1 then ERROR_USERNAME_NOT_FOUND else SUCCESS
    case Some(p) =>
      if option == 2 then ERROR_DUPLICATE_USERNAME
      else if pass != p then ERROR_PASSWORD_NOT_MATCHING
      else if Session(hist, name).None? then SUCCESS
      else ERROR_USER_LOGGED_IN
  }

  /** What the table says about a name. */
  function Stored(rows: seq<Row>, name: string): (Option<string>, Option<int>) {
    var r := FirstRow(rows, name);
    if r < 0 then (None, None)
    else (Some(rows[r].pass), if rows[r].status == 1 then Some(rows[r].sockfd) else None)
  }

  /** The table holds what the history says. */
  ghost predicate Represents(table: seq<Row>, hist: seq<Deed>, rows: seq<Row>) {
    forall name: string :: Stored(rows, name) == (Password(table, hist, name), Session(hist, name))
  }

  lemma FirstRowIs(rows: seq<Row>, i: nat)
    requires Distinct(rows) && i < |rows|
    ensures FirstRow(rows, rows[i].name) == i
  {
    var r := FirstRow(rows, rows[i].name);
    assert r >= 0;
  }

  lemma StoredAfterUpdate(rows: seq<Row>, name: string, status: int, fd: int, other: string)
    requires Distinct(rows)
    ensures Stored(WithStatus(rows, name, status, fd), other) ==
            if other == name && FirstRow(rows, name) >= 0
            then (Stored(rows, name).0, if status == 1 then Some(fd) else None)
            else Stored(rows, other)
  {
    var after, r := WithStatus(rows, name, status, fd), FirstRow(rows, other);
    if r >= 0 {
      assert after[r].name == other;
      FirstRowIs(after, r);
    } else {
      assert FirstRow(after, other) < 0;
    }
  }

  lemma StoredAfterInsert(rows: seq<Row>, row: Row, other: string)
    requires FirstRow(rows, row.name) < 0
    ensures Stored(rows + [row], other) ==
            if other == row.name then (Some(row.pass), if row.status == 1 then Some(row.sockfd) else None)
            else Stored(rows, other)
  {
    assert (rows + [row])[..|rows|] == rows;
  }

  lemma StoredAfterShutdown(s: State, other: string)
    requires Good(s)
    ensures Stored(AllOffline(s.rows), other) == (Stored(s.rows, other).0, None)
  {
    var after, r := AllOffline(s.rows), FirstRow(s.rows, other);
    assert forall i, j :: 0 <= i < j < |after| ==> after[i].name == s.rows[i].name && after[j].name == s.rows[j].name;
    if r >= 0 {
      assert after[r].name == other;
      FirstRowIs(after, r);
      assert RowOk(s, r);
      if s.rows[r].status == 1 {
        assert ConOk(s, s.rows[r].sockfd);
      }
    } else {
      assert FirstRow(after, other) < 0;
    }
  }

  lemma OneMore(table: seq<Row>, hist: seq<Deed>, d: Deed, name: string)
    ensures Password(table, hist + [d], name) ==
            if d.Registered? && d.name == name then Some(d.pass) else Password(table, hist, name)
    ensures Session(hist + [d], name) ==
            match d
            case Registered(n, _, fd) => if n == name then Some(fd) else Session(hist, name)
            case EnteredAs(n, fd) => if n == name then Some(fd) else Session(hist, name)
            case LeftBy(fd) => if Session(hist, name) == Some(fd) then None else Session(hist, name)
            case AllLeft => None
  {
    assert (hist + [d])[..|hist|] == hist;
  }

  /** A name is stored as logged in at `fd` exactly when it is the name of the connection `fd`. */
  lemma StoredSession(s: State, fd: int, name: string)
    requires Good(s) && LoggedIn(s, fd)
    ensures Stored(s.rows, name).1 == Some(fd) <==> name == s.cons[fd].name
  {
    assert ConOk(s, fd);
    var i: nat :| Owns(s, fd, i);
    OwnerNamed(s, fd, i);
    FirstRowIs(s.rows, i);
    var r := FirstRow(s.rows, name);
    if r >= 0 {
      assert RowOk(s, r);
    }
  }

  lemma DepartureRepresents(table: seq<Row>, hist: seq<Deed>, s: State, fd: int)
    requires Good(s) && LoggedIn(s, fd) && Represents(table, hist, s.rows)
    ensures Represents(table, hist + [LeftBy(fd)], Departed(s, fd).rows)
  {
    var rows, mine := Departed(s, fd).rows, s.cons[fd].name;
    StoredSession(s, fd, mine);
    forall name: string
      ensures Stored(rows, name) == (Password(table, hist + [LeftBy(fd)], name), Session(hist + [LeftBy(fd)], name))
    {
      OneMore(table, hist, LeftBy(fd), name);
      StoredAfterUpdate(s.rows, mine, 0, -1, name);
      StoredSession(s, fd, name);
      assert Stored(s.rows, name) == (Password(table, hist, name), Session(hist, name));
    }
  }

  lemma RequestRepresents(table: seq<Row>, hist: seq<Deed>, s: State, e: Event)
    requires Good(s) && Enabled(s, e) && e.Request? && Represents(table, hist, s.rows)
    ensures Represents(table, hist + Deeds(s, e), After(s, e).rows)
  {
    var deeds, rows := Deeds(s, e), After(s, e).rows;
    if deeds == [] {
      assert hist + deeds == hist;
    } else {
      forall name: string
        ensures Stored(rows, name) == (Password(table, hist + deeds, name), Session(hist + deeds, name))
      {
        OneMore(table, hist, deeds[0], name);
        assert Stored(s.rows, name) == (Password(table, hist, name), Session(hist, name));
        if FirstRow(s.rows, e.name) < 0 {
          StoredAfterInsert(s.rows, Row(e.name, e.pass, 1, e.fd), name);
        } else {
          StoredAfterUpdate(s.rows, e.name, 1, e.fd, name);
        }
      }
    }
  }

  lemma EventRepresents(table: seq<Row>, hist: seq<Deed>, s: State, e: Event)
    requires Good(s) && Enabled(s, e) && Represents(table, hist, s.rows)
    ensures Represents(table, hist + Deeds(s, e), After(s, e).rows)
  {
    if e.Request? {
      RequestRepresents(table, hist, s, e);
    } else if Deeds(s, e) == [] {
      assert hist + Deeds(s, e) == hist;
    } else if e.Shutdown? {
      forall name: string
        ensures Stored(After(s, e).rows, name) ==
              (Password(table, hist + [AllLeft], name), Session(hist + [AllLeft], name))
      {
        OneMore(table, hist, AllLeft, name);
        StoredAfterShutdown(s, name);
        assert Stored(s.rows, name) == (Password(table, hist, name), Session(hist, name));
      }
    } else {
      DepartureRepresents(table, hist, s, e.fd);
    }
  }

  /** After every run the table holds exactly what the history says. */
  lemma {:induction false} RunRepresents(s: State, events: seq<Event>)
    requires AllIdle(s) && Legal(s, events)
    ensures Represents(s.rows, History(s, events), Final(s, events).rows)
    decreases |events|
  {
    if events == [] {
      forall name: string ensures Stored(s.rows, name) == (Password(s.rows, [], name), Session([], name)) {
      }
    } else {
      var init := events[..|events| - 1];
      RunRepresents(s, init);
      RunGood(s, init);
      EventRepresents(s.rows, History(s, init), Final(s, init), events[|events| - 1]);
    }
  }

  /** Every login or registration reply, in every run, is the one the history calls for. */
  lemma RepliesFollowHistory(s: State, events: seq<Event>, e: Event)
    requires AllIdle(s) && Legal(s, events) && Enabled(Final(s, events), e) && e.Request?
    ensures Sends(Final(s, events), e) ==
            [Sent(e.fd, Reply(Expected(s.rows, History(s, events), e.option, e.name, e.pass)))]
  {
    var t := Final(s, events);
    RunRepresents(s, events);
    RunGood(s, events);
    assert Stored(t.rows, e.name) ==
           (Password(s.rows, History(s, events), e.name), Session(History(s, events), e.name));
    var r := FirstRow(t.rows, e.name);
    if r >= 0 {
      assert RowOk(t, r);
    }
  }

  // ----- what the histories look like -----

  /** Names register once, enter only when not already in, and never at a descriptor in use. */
  ghost predicate DeedOk(table: seq<Row>, hist: seq<Deed>, d: Deed) {
    match d
    case Registered(name, _, fd) =>
      Password(table, hist, name).None? && forall n: string :: Session(hist, n) != Some(fd)
    case EnteredAs(name, fd) =>
      Password(table, hist, name).Some? && Session(hist, name).None? && forall n: string :: Session(hist, n) != Some(fd)
    case LeftBy(fd) => exists n: string :: Session(hist, n) == Some(fd)
    case AllLeft => true
  }

  ghost predicate Orderly(table: seq<Row>, hist: seq<Deed>) {
    hist == [] || (Orderly(table, hist[..|hist| - 1]) && DeedOk(table, hist[..|hist| - 1], hist[|hist| - 1]))
  }

  lemma EventOrderly(table: seq<Row>, hist: seq<Deed>, s: State, e: Event, d: Deed)
    requires Good(s) && Enabled(s, e) && Represents(table, hist, s.rows) && Deeds(s, e) == [d]
    ensures DeedOk(table, hist, d)
  {
    if e.Request? {
      var name, fd := e.name, e.fd;
      assert Stored(s.rows, name) == (Password(table, hist, name), Session(hist, name));
      var r := FirstRow(s.rows, name);
      if r >= 0 {
        assert RowOk(s, r);
      }
      forall n: string ensures Session(hist, n) != Some(fd) {
        assert Stored(s.rows, n) == (Password(table, hist, n), Session(hist, n));
        var q := FirstRow(s.rows, n);
        if q >= 0 {
          assert RowOk(s, q);
        }
      }
    } else if e.Choice? || e.HangUp? {
      var n := s.cons[e.fd].name;
      StoredSession(s, e.fd, n);
      assert Stored(s.rows, n) == (Password(table, hist, n), Session(hist, n));
    }
  }

  /** In every run sessions of one name, and of one descriptor, never overlap. */
  lemma {:induction false} RunOrderly(s: State, events: seq<Event>)
    requires AllIdle(s) && Legal(s, events)
    ensures Orderly(s.rows, History(s, events))
    decreases |events|
  {
    if events != [] {
      var init, e := events[..|events| - 1], events[|events| - 1];
      var t, hist := Final(s, init), History(s, init);
      RunOrderly(s, init);
      RunRepresents(s, init);
      RunGood(s, init);
      var deeds := Deeds(t, e);
      if deeds == [] {
        assert hist + deeds == hist;
      } else {
        EventOrderly(s.rows, hist, t, e, deeds[0]);
        assert (hist + deeds)[..|hist|] == hist;
      }
    }
  }

  /** Accounts and passwords persist: through departures, shutdowns and restarts. */
  lemma {:induction false} PasswordsPersist(table: seq<Row>, hist: seq<Deed>, more: seq<Deed>, name: string)
    requires Orderly(table, hist + more) && Password(table, hist, name).Some?
    ensures Password(table, hist + more, name) == Password(table, hist, name)
    decreases |more|
  {
    if more == [] {
      assert hist + more == hist;
    } else {
      var init, d := more[..|more| - 1], more[|more| - 1];
      assert hist + more == (hist + init) + [d];
      assert (hist + more)[..|hist + more| - 1] == hist + init;
      PasswordsPersist(table, hist, init, name);
      OneMore(table, hist + init, d, name);
    }
  }
}
