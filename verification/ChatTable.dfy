/** The user table of the chat server and the four operations on it (database.cpp). */
module ChatTable {
  /** A row of `usrs`; nothing in the table itself keeps names distinct. */
  datatype Row = Row(name: string, pass: string, status: int, sockfd: int)

  /** The row a `SELECT ... WHERE username` steps to first. */
  function FirstRow(rows: seq<Row>, name: string): (r: int)
    ensures -1 <= r < |rows|
    ensures r >= 0 ==> rows[r].name == name && forall i :: 0 <= i < r ==> rows[i].name != name
    ensures r == -1 ==> forall i :: 0 <= i < |rows| ==> rows[i].name != name
  {
    if rows == [] then -1
    else
      var r := FirstRow(rows[..|rows| - 1], name);
      if r >= 0 then r else if rows[|rows| - 1].name == name then |rows| - 1 else -1
  }

  /** `UPDATE ... WHERE username`: every row of that name. */
  function WithStatus(rows: seq<Row>, name: string, status: int, sockfd: int): (r: seq<Row>)
    ensures |r| == |rows|
    ensures forall i :: 0 <= i < |rows| ==>
            r[i] == if rows[i].name == name then rows[i].(status := status, sockfd := sockfd) else rows[i]
  {
    seq(|rows|, i requires 0 <= i < |rows| =>
      if rows[i].name == name then rows[i].(status := status, sockfd := sockfd) else rows[i])
  }

  /** `UPDATE ... WHERE sockfd != -1`. */
  function AllOffline(rows: seq<Row>): (r: seq<Row>)
    ensures |r| == |rows|
    ensures forall i :: 0 <= i < |rows| ==>
            r[i] == if rows[i].sockfd != -1 then rows[i].(status := 0, sockfd := -1) else rows[i]
  {
    seq(|rows|, i requires 0 <= i < |rows| =>
      if rows[i].sockfd != -1 then rows[i].(status := 0, sockfd := -1) else rows[i])
  }

  class Database {
    var rows: seq<Row>

    constructor (table: seq<Row>)
      ensures rows == table
    {
      rows := table;
    }

    method QueryUserInfo(name: string) returns (found: bool, pass: string, status: int, sockfd: int)
      ensures found <==> exists i :: 0 <= i < |rows| && rows[i].name == name
      ensures found ==> var r := FirstRow(rows, name);
              r >= 0 && pass == rows[r].pass && status == rows[r].status && sockfd == rows[r].sockfd
    {
      found, pass, status, sockfd := false, "", 0, 0;
      var r := FirstRow(rows, name);
      if r >= 0 {
        found, pass, status, sockfd := true, rows[r].pass, rows[r].status, rows[r].sockfd;
      }
    }

    /** The update statement, row by row. */
    method UpdateUserStatus(name: string, status: int, sockfd: int)
      modifies this
      ensures rows == WithStatus(old(rows), name, status, sockfd)
    {
      for i := 0 to |rows|
        invariant |rows| == |old(rows)|
        invariant forall k :: 0 <= k < i ==> rows[k] == WithStatus(old(rows), name, status, sockfd)[k]
        invariant forall k :: i <= k < |rows| ==> rows[k] == old(rows)[k]
      {
        if rows[i].name == name {
          rows := rows[i := rows[i].(status := status, sockfd := sockfd)];
        }
      }
    }

    method AddNewUserToDatabase(name: string, pass: string, status: int, sockfd: int)
      modifies this
      ensures rows == old(rows) + [Row(name, pass, status, sockfd)]
    {
      rows := rows + [Row(name, pass, status, sockfd)];
    }

    /** The update statement, row by row. */
    method SetAllUsersOffline()
      modifies this
      ensures rows == AllOffline(old(rows))
    {
      for i := 0 to |rows|
        invariant |rows| == |old(rows)|
        invariant forall k :: 0 <= k < i ==> rows[k] == AllOffline(old(rows))[k]
        invariant forall k :: i <= k < |rows| ==> rows[k] == old(rows)[k]
      {
        if rows[i].sockfd != -1 {
          rows := rows[i := rows[i].(status := 0, sockfd := -1)];
        }
      }
    }
  }
}
