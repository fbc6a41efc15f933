/** One event of the chat server at a time (socket_server.cpp:5-216). */
module ChatProtocol {
  import opened ChatTable

  datatype ConState = REQUEST | AUTHENTICATED | ONLINE

  /** An entry of `con_list`. */
  datatype Con = Con(name: string, state: ConState)

  datatype Response = SUCCESS | ERROR_DUPLICATE_USERNAME | ERROR_USERNAME_NOT_FOUND
                    | ERROR_PASSWORD_NOT_MATCHING | ERROR_USER_LOGGED_IN

  datatype Payload = Reply(res: Response) | Text(text: string)

  datatype Sent = Sent(fd: int, payload: Payload)

  datatype State = State(running: bool, cons: map<int, Con>, rows: seq<Row>)

  datatype Event =
    | Accept(fd: int)
    | Request(fd: int, option: int, name: string, pass: string)
    | Choice(fd: int, option: int)
    | Line(fd: int, text: string)
    | HangUp(fd: int)
    | Shutdown
    | Restart

  /** What can happen next: a new connection gets a descriptor not in use, and what is read from a connection
      is decoded by the state it is in. */
  predicate Enabled(s: State, e: Event) {
    match e
    case Restart => !s.running
    case Shutdown => s.running
    case Accept(fd) => s.running && fd >= 0 && fd !in s.cons
    case Request(fd, option, _, _) => s.running && fd in s.cons && s.cons[fd].state == REQUEST && option in {1, 2}
    case Choice(fd, _) => s.running && fd in s.cons && s.cons[fd].state == AUTHENTICATED
    case Line(fd, _) => s.running && fd in s.cons && s.cons[fd].state == ONLINE
    case HangUp(fd) => s.running && fd in s.cons
  }

  /** The descriptors `NotifyToOnelineUser` sends to, in table order. */
  function Recipients(rows: seq<Row>, fd: int): seq<int> {
    if rows == [] then []
    else
      var last := rows[|rows| - 1];
      Recipients(rows[..|rows| - 1], fd) + if last.status == 1 && last.sockfd != fd then [last.sockfd] else []
  }

  function Addressed(to: seq<int>, msg: string): seq<Sent> {
    seq(|to|, i requires 0 <= i < |to| => Sent(to[i], Text(msg)))
  }

  function Broadcast(rows: seq<Row>, fd: int, msg: string): seq<Sent> {
    Addressed(Recipients(rows, fd), msg)
  }

  function OfflineNotice(name: string): string {
    "INFO: " + name + " is offline\r\n"
  }

  function OnlineNotice(name: string): string {
    "INFO: " + name + " is online\r\n"
  }

  function ChatLine(name: string, text: string): string {
    name + ": " + text + "\r\n"
  }

  /** `CheckUserInfo` (socket_server.cpp:112-144). The code sets no reply for a status other than 0 and 1;
      no reachable state holds one. */
  function Check(rows: seq<Row>, option: int, name: string, pass: string, fd: int): (seq<Row>, Response)
    requires option in {1, 2}
  {
    var r := FirstRow(rows, name);
    if r < 0 then
      if option == 1 then (rows, ERROR_USERNAME_NOT_FOUND)
      else (rows + [Row(name, pass, 1, fd)], SUCCESS)
    else if option == 2 then (rows, ERROR_DUPLICATE_USERNAME)
    else if pass != rows[r].pass then (rows, ERROR_PASSWORD_NOT_MATCHING)
    else if rows[r].status == 0 then (WithStatus(rows, name, 1, fd), SUCCESS)
    else (rows, ERROR_USER_LOGGED_IN)
  }

  /** The state after an event. */
  function After(s: State, e: Event): State
    requires Enabled(s, e)
  {
    match e
    case Accept(fd) => s.(cons := s.cons[fd := Con("", REQUEST)])
    case Request(fd, option, name, pass) =>
      var (rows, res) := Check(s.rows, option, name, pass, fd);
      s.(rows := rows, cons := s.cons[fd := Con(name, if res == SUCCESS then AUTHENTICATED else REQUEST)])
    case Choice(fd, option) =>
      if option == 3 then Departed(s, fd) else s.(cons := s.cons[fd := s.cons[fd].(state := ONLINE)])
    case Line(_, _) => s
    case HangUp(fd) => if s.cons[fd].state == REQUEST then s.(cons := s.cons - {fd}) else Departed(s, fd)
    case Shutdown => State(false, map[], AllOffline(s.rows))
    case Restart => State(true, map[], s.rows)
  }

  /** The session's name goes offline and its connection is forgotten. */
  function Departed(s: State, fd: int): State
    requires fd in s.cons
  {
    s.(rows := WithStatus(s.rows, s.cons[fd].name, 0, -1), cons := s.cons - {fd})
  }

  /** What an event makes the server send. A departure is announced before the table update when no chat option
      was chosen yet, and after it otherwise. */
  function Sends(s: State, e: Event): seq<Sent>
    requires Enabled(s, e)
  {
    match e
    case Request(fd, option, name, pass) => [Sent(fd, Reply(Check(s.rows, option, name, pass, fd).1))]
    case Choice(fd, option) =>
      var name := s.cons[fd].name;
      if option == 3 then Broadcast(s.rows, fd, OfflineNotice(name))
      else [Sent(fd, Reply(SUCCESS))] + Broadcast(s.rows, fd, OnlineNotice(name))
    case Line(fd, text) => Broadcast(s.rows, fd, ChatLine(s.cons[fd].name, text))
    case HangUp(fd) =>
      var name := s.cons[fd].name;
      (match s.cons[fd].state
       case REQUEST => []
       case AUTHENTICATED => Broadcast(s.rows, fd, OfflineNotice(name))
       case ONLINE => Broadcast(WithStatus(s.rows, name, 0, -1), fd, OfflineNotice(name)))
    case _ => []
  }

  // ----- the server object -----

  /** `con_list` and the table, and everything sent so far. */
  class Server {
    var running: bool
    var conList: map<int, Con>
    const dtb: Database
    var sent: seq<Sent>

    constructor (database: Database)
      ensures dtb == database && View() == State(true, map[], database.rows) && sent == []
    {
      running, conList, dtb, sent := true, map[], database, [];
    }

    function View(): State
      reads this, dtb
    {
      State(running, conList, dtb.rows)
    }

    method AddSocketToEpoll(fd: int)
      requires Enabled(View(), Accept(fd))
      modifies this`conList
      ensures View() == After(old(View()), Accept(fd))
    {
      conList := conList[fd := Con("", REQUEST)];
    }

    method DelFromEpoll(fd: int)
      modifies this`conList
      ensures conList == old(conList) - {fd}
    {
      conList := conList - {fd};
    }

    method Send(fd: int, payload: Payload)
      modifies this`sent
      ensures sent == old(sent) + [Sent(fd, payload)]
    {
      sent := sent + [Sent(fd, payload)];
    }

    /** `NotifyToOnelineUser` (socket_server.cpp:47-56): one send per row with status 1, the sender's row excepted. */
    method NotifyToOnelineUser(fd: int, msg: string)
      modifies this`sent
      ensures sent == old(sent) + Broadcast(dtb.rows, fd, msg)
    {
      var rows := dtb.rows;
      for i := 0 to |rows|
        invariant sent == old(sent) + Broadcast(rows[..i], fd, msg)
      {
        BroadcastStep(rows, i, fd, msg);
        if rows[i].status == 1 {
          var sockfd := rows[i].sockfd;
          if sockfd != fd {
            Send(sockfd, Text(msg));
          }
        }
      }
      assert rows[..|rows|] == rows;
    }

    method CheckUserInfo(option: int, name: string, pass: string, confd: int) returns (res: Response)
      requires option in {1, 2}
      modifies dtb
      ensures (dtb.rows, res) == Check(old(dtb.rows), option, name, pass, confd)
    {
      var found, storedPass, status, fd := dtb.QueryUserInfo(name);
      if !found {
        if option == 1 {
          res := ERROR_USERNAME_NOT_FOUND;
        } else {
          dtb.AddNewUserToDatabase(name, pass, 1, confd);
          res := SUCCESS;
        }
      } else if option == 2 {
        res := ERROR_DUPLICATE_USERNAME;
      } else if pass == storedPass {
        if status == 0 {
          dtb.UpdateUserStatus(name, 1, confd);
          res := SUCCESS;
        } else {
          res := ERROR_USER_LOGGED_IN;
        }
      } else {
        res := ERROR_PASSWORD_NOT_MATCHING;
      }
    }

    /** `HandleSingleSocketCon` (socket_server.cpp:146-216) for what was read from one connection. */
    method HandleSingleSocketCon(e: Event)
      requires e.Request? || e.Choice? || e.Line? || e.HangUp?
      requires Enabled(View(), e)
      modifies this`conList, this`sent, dtb
      ensures View() == After(old(View()), e)
      ensures sent == old(sent) + Sends(old(View()), e)
    {
      var fd := e.fd;
      var name := conList[fd].name;
      match conList[fd].state {
        case REQUEST =>
          if e.HangUp? {
            DelFromEpoll(fd);
          } else {
            var res := CheckUserInfo(e.option, e.name, e.pass, fd);
            conList := conList[fd := conList[fd].(name := e.name)];
            Send(fd, Reply(res));
            if res == SUCCESS {
              conList := conList[fd := conList[fd].(state := AUTHENTICATED)];
            }
          }
        case AUTHENTICATED =>
          if e.HangUp? || e.option == 3 {
            NotifyToOnelineUser(fd, OfflineNotice(name));
            dtb.UpdateUserStatus(name, 0, -1);
            DelFromEpoll(fd);
          } else {
            Send(fd, Reply(SUCCESS));
            NotifyToOnelineUser(fd, OnlineNotice(name));
            conList := conList[fd := conList[fd].(state := ONLINE)];
          }
        case ONLINE =>
          if e.HangUp? {
            dtb.UpdateUserStatus(name, 0, -1);
            NotifyToOnelineUser(fd, OfflineNotice(name));
            DelFromEpoll(fd);
          } else {
            NotifyToOnelineUser(fd, ChatLine(name, e.text));
          }
      }
    }

    /** The signal handler ends the process; its connection table is gone (socket_server.cpp:5-10). */
    method SignalHandler()
      requires Enabled(View(), Shutdown)
      modifies this, dtb
      ensures View() == After(old(View()), Shutdown)
    {
      dtb.SetAllUsersOffline();
      running, conList := false, map[];
    }
  }

  lemma BroadcastStep(rows: seq<Row>, i: nat, fd: int, msg: string)
    requires i < |rows|
    ensures Broadcast(rows[..i + 1], fd, msg) == Broadcast(rows[..i], fd, msg) +
            if rows[i].status == 1 && rows[i].sockfd != fd then [Sent(rows[i].sockfd, Text(msg))] else []
  {
    assert rows[..i + 1][..i] == rows[..i];
  }
}
