/**
 * The statements `UserRepositoryImpl` of
 * internal/infrastructure/repositories/user_repository_impl.go sends to the
 * database: `Create` and `Update` with their normalised arguments, the
 * `UpdateProfile` builder with its positional placeholders, and
 * `UpdateProfileImage`. The database itself is not modelled: the repository
 * keeps the statements it sent, in order, and a fault flag says whether
 * executing one failed.
 */
module UserRepository {
  import opened Wrappers
  import opened StringUtils
  import Numerals
  import Strs
  import Uuids
  import Users

  /** A statement argument: text or SQL NULL (None), an instant, or a UUID. */
  datatype Arg = Text(t: Option<string>) | Time(instant: int) | Id(id: Uuids.Uuid)

  datatype Statement = Statement(query: string, args: seq<Arg>)

  /** `UpdateUserProfileRequest`: each field absent (a nil pointer) or present. */
  datatype UpdateUserProfileRequest = UpdateUserProfileRequest(name: Option<string>, email: Option<string>)

  /** A repository error: `ExecContext` failed. */
  datatype RepoError = ExecFailed

  /** `col = $k`: one assignment with the positional parameter `$k` of PostgreSQL. */
  function Assign(col: string, k: nat): (r: string)
    ensures |r| >= |col| + 4 && Numerals.IsDecimalDigit(r[|r| - 1])
  {
    col + (" = $" + Numerals.NatToString(k))
  }

  /** `c0 = $k, c1 = $k+1, …`: one assignment per column, numbered consecutively from `k`. */
  function Assignments(cols: seq<string>, k: nat): (r: string)
    ensures cols != [] ==> |r| >= 4 && Numerals.IsDecimalDigit(r[|r| - 1])
    ensures cols == [] ==> r == ""
  {
    if cols == [] then ""
    else if |cols| == 1 then Assign(cols[0], k)
    else Assignments(cols[..|cols| - 1], k) + (", " + Assign(cols[|cols| - 1], k + |cols| - 1))
  }

  /** The head every profile update starts from. */
  const UpdateUsersSet: string := "UPDATE users SET "

  /** The columns a profile request sets, in the order the builder visits them. */
  function ProfileColumns(req: UpdateUserProfileRequest): seq<string>
  {
    (if req.name.Some? then ["name"] else []) + (if req.email.Some? then ["email"] else [])
  }

  /** The values of those columns: the name through `NullIfEmpty`, the email through `SafeToLower`. */
  function ProfileValues(req: UpdateUserProfileRequest): seq<Arg>
  {
    (if req.name.Some? then [NameArg(req.name.value)] else []) + (if req.email.Some? then [EmailArg(req.email.value)] else [])
  }

  /** The name as `UpdateProfile` sends it: SQL NULL when blank, else trimmed. */
  function NameArg(name: string): Arg
  {
    Text(NullIfEmpty(DString(name)))
  }

  /** The email as `UpdateProfile` sends it: SQL NULL when blank, else trimmed and lower-cased. */
  function EmailArg(email: string): Arg
  {
    Text(SafeToLower(DString(email)))
  }

  /**
   * The statement `UpdateProfile` sends: the request's columns, then
   * `updated_at` and the `WHERE id`, numbered $1, $2, … in that order, with one
   * argument per placeholder.
   */
  function ProfileStatement(user: Uuids.Uuid, req: UpdateUserProfileRequest, now: int): Statement
  {
    var cols := ProfileColumns(req);
    var n := |cols|;
    Statement(UpdateUsersSet + (Assignments(cols, 1) + (", updated_at = $" + (Numerals.NatToString(n + 1) + (" WHERE id = $" + Numerals.NatToString(n + 2))))),
              ProfileValues(req) + [Time(now), Id(user)])
  }

  const CreateQuery: string := "INSERT INTO users (id, email, mobile, name, created_at, updated_at) VALUES ($1, $2, $3, $4, $5, $6)"
  const UpdateQuery: string := "UPDATE users SET email = $2, mobile = $3, name = $4, updated_at = $5 WHERE id = $1"
  const UpdateProfileImageQuery: string := "UPDATE users SET avatar_url = $1, updated_at = $3 WHERE id = $2"

  /** The normalised email, mobile and name arguments `Create` and `Update` both send. */
  function ContactArgs(u: Users.User): seq<Arg>
  {
    [Text(SafeToLower(DString(u.email))), Text(NullIfEmpty(DString(u.mobile))), Text(NullIfEmpty(DString(u.name)))]
  }

  function CreateStatement(u: Users.User): Statement
  {
    Statement(CreateQuery, [Id(u.id)] + ContactArgs(u) + [Time(u.createdAt), Time(u.updatedAt)])
  }

  function UpdateStatement(u: Users.User, now: int): Statement
  {
    Statement(UpdateQuery, [Id(u.id)] + ContactArgs(u) + [Time(now)])
  }

  function UpdateProfileImageStatement(u: Users.User, now: int): Statement
  {
    Statement(UpdateProfileImageQuery, [Text(Some(u.avatarUrl)), Id(u.id), Time(now)])
  }

  lemma Assoc(a: string, b: string, c: string)
    ensures (a + b) + c == a + (b + c)
  {
  }

  /** Cutting one trailing ", " gives back what preceded it. */
  lemma TrimCommaSpace(p: string)
    ensures Strs.TrimSuffix(p + ", ", ", ") == p
  {
    var s := p + ", ";
    assert s[|s| - 2..] == ", ";
    assert s[..|s| - 2] == p;
  }

  /** A string ending with a digit, or with "T ", has no trailing ", " to cut. */
  lemma TrimKeeps(s: string)
    requires |s| >= 2 && (s[|s| - 1] != ' ' || s[|s| - 2] != ',')
    ensures Strs.TrimSuffix(s, ", ") == s
  {
  }

  /** The text of the query while the builder is adding fields: each written column followed by ", ". */
  function Building(written: seq<string>): string
  {
    if written == [] then UpdateUsersSet else UpdateUsersSet + (Assignments(written, 1) + ", ")
  }

  /** What the builder appends for one column: `col = $i, `. */
  function Piece(col: string, i: nat): string
  {
    col + (" = $" + (Numerals.NatToString(i) + ", "))
  }

  lemma PieceIsAssign(col: string, i: nat)
    ensures Piece(col, i) == Assign(col, i) + ", "
  {
    Assoc(col, " = $" + Numerals.NatToString(i), ", ");
    Assoc(" = $", Numerals.NatToString(i), ", ");
  }

  /** Numbering goes on where it stopped: one more column gets the next placeholder. */
  lemma AssignmentsSnoc(cols: seq<string>, c: string, k: nat)
    requires cols != []
    ensures Assignments(cols + [c], k) == Assignments(cols, k) + (", " + Assign(c, k + |cols|))
  {
    assert (cols + [c])[..|cols|] == cols;
  }

  /** Appending a piece to the text under construction writes one more column. */
  lemma AppendColumn(written: seq<string>, c: string)
    ensures Building(written) + Piece(c, |written| + 1) == Building(written + [c])
  {
    var s := UpdateUsersSet;
    var k := |written| + 1;
    PieceIsAssign(c, k);
    if written != [] {
      var a := Assignments(written, 1);
      var p := Piece(c, k);
      Assoc(s, a + ", ", p);
      Assoc(a, ", ", p);
      AssignmentsSnoc(written, c, 1);
      Assoc(a, ", " + Assign(c, k), ", ");
      Assoc(", ", Assign(c, k), ", ");
    }
  }

  /** Cutting ", " twice leaves the assignments alone. */
  lemma FinishBuilding(written: seq<string>)
    ensures Strs.TrimSuffix(Strs.TrimSuffix(Building(written), ", "), ", ") == UpdateUsersSet + Assignments(written, 1)
  {
    var head := UpdateUsersSet + Assignments(written, 1);
    if written != [] {
      Assoc(UpdateUsersSet, Assignments(written, 1), ", ");
      TrimCommaSpace(head);
    } else {
      TrimKeeps(head);
    }
    TrimKeeps(head);
  }

  /**
   * `UpdateProfile`'s builder: the text grows by one assignment per present
   * field while `i` counts placeholders; then the trailing ", " is cut (twice,
   * as written), and `updated_at` and the id take the next two numbers.
   */
  method BuildUpdateProfile(user: Uuids.Uuid, req: UpdateUserProfileRequest, now: int) returns (st: Statement)
    ensures st == ProfileStatement(user, req, now)
  {
    var query, params, i := AddColumns(req);
    FinishBuilding(ProfileColumns(req));
    query := Strs.TrimSuffix(query, ", ");
    query := Strs.TrimSuffix(query, ", ");
    var tail := ", updated_at = $" + (Numerals.NatToString(i) + (" WHERE id = $" + Numerals.NatToString(i + 1)));
    Assoc(UpdateUsersSet, Assignments(ProfileColumns(req), 1), tail);
    query := query + tail;
    params := params + [Time(now), Id(user)];
    st := Statement(query, params);
  }

  /** The first part of the builder: one piece and one argument per present field, `i` the next placeholder number. */
  method AddColumns(req: UpdateUserProfileRequest) returns (query: string, params: seq<Arg>, i: nat)
    ensures query == Building(ProfileColumns(req))
    ensures params == ProfileValues(req)
    ensures i == |ProfileColumns(req)| + 1
  {
    var written := if req.name.Some? then ["name"] else [];
    query, params, i := Building([]), [], 1;
    if req.name.Some? {
      query, params, i := AddColumn(query, params, i, [], "name", NameArg(req.name.value));
    }
    assert query == Building(written) && i == |written| + 1;
    if req.email.Some? {
      query, params, i := AddColumn(query, params, i, written, "email", EmailArg(req.email.value));
    }
  }

  /** The step the builder repeats per present field: `col = $i, ` onto the text, the value onto the arguments, `i` on by one. */
  method AddColumn(query: string, params: seq<Arg>, i: nat, ghost written: seq<string>, col: string, value: Arg)
      returns (query': string, params': seq<Arg>, i': nat)
    requires query == Building(written) && i == |written| + 1
    ensures query' == Building(written + [col]) && params' == params + [value] && i' == i + 1
  {
    AppendColumn(written, col);
    query' := query + Piece(col, i);
    params' := params + [value];
    i' := i + 1;
  }

  /** With only the name set, the statement is `UPDATE users SET name = $1, updated_at = $2 WHERE id = $3`. */
  lemma OnlyNameQuery(user: Uuids.Uuid, name: string, now: int)
    ensures ProfileStatement(user, UpdateUserProfileRequest(Some(name), None), now).query
            == "UPDATE users SET " + ("name = $1" + (", updated_at = $2" + " WHERE id = $3"))
  {
    var req := UpdateUserProfileRequest(Some(name), None);
    assert ProfileColumns(req) == ["name"];
    assert Numerals.NatToString(1) == "1" && Numerals.NatToString(2) == "2" && Numerals.NatToString(3) == "3";
    assert Assignments(["name"], 1) == "name = $1";
    Assoc(", updated_at = $", "2", " WHERE id = $" + "3");
  }

  /**
   * With neither field set the builder emits an empty SET list,
   * `UPDATE users SET , updated_at = $1 WHERE id = $2`, which is not valid SQL;
   * `UpdateUserProfileUseCase` never lets such a request through.
   */
  lemma EmptyRequestQuery(user: Uuids.Uuid, now: int)
    ensures ProfileStatement(user, UpdateUserProfileRequest(None, None), now).query
            == "UPDATE users SET " + (", updated_at = $1" + " WHERE id = $2")
  {
    assert Numerals.NatToString(1) == "1" && Numerals.NatToString(2) == "2";
    Assoc(", updated_at = $", "1", " WHERE id = $" + "2");
  }

  /** One argument per placeholder: the request's values, then `updated_at`, then the user id. */
  lemma ProfileArgs(user: Uuids.Uuid, req: UpdateUserProfileRequest, now: int)
    ensures var st := ProfileStatement(user, req, now);
      var n := |ProfileColumns(req)|;
      && |st.args| == n + 2
      && st.args[n] == Time(now) && st.args[n + 1] == Id(user)
      && n == (if req.name.Some? then 1 else 0) + (if req.email.Some? then 1 else 0)
      && (req.name.Some? ==> ProfileColumns(req)[0] == "name" && st.args[0] == Text(NullIfEmpty(DString(req.name.value))))
      && (req.email.Some? ==> ProfileColumns(req)[n - 1] == "email" && st.args[n - 1] == Text(SafeToLower(DString(req.email.value))))
  {
  }

  /** `UpdateProfile` normalises name and email exactly as `Create` and `Update` do. */
  lemma SameNormalisation(u: Users.User, now: int)
    ensures var both := ProfileValues(UpdateUserProfileRequest(Some(u.name), Some(u.email)));
      && both == [ContactArgs(u)[2], ContactArgs(u)[0]]
      && CreateStatement(u).args[1..4] == ContactArgs(u)
      && UpdateStatement(u, now).args[1..4] == ContactArgs(u)
  {
  }

  class UserRepository {
    /** The statements sent to the database, in order. */
    var sent: seq<Statement>

    constructor()
      ensures sent == []
    {
      sent := [];
    }

    /** `Create`: the insert with its normalised email, mobile and name. */
    method Create(u: Users.User, dbError: bool) returns (err: Option<RepoError>)
      modifies this
      ensures sent == old(sent) + [CreateStatement(u)]
      ensures err == (if dbError then Some(ExecFailed) else None)
    {
      sent := sent + [CreateStatement(u)];
      err := if dbError then Some(ExecFailed) else None;
    }

    /** `Update`: email, mobile and name normalised as in `Create`, `updated_at` the current instant. */
    method Update(u: Users.User, now: int, dbError: bool) returns (err: Option<RepoError>)
      modifies this
      ensures sent == old(sent) + [UpdateStatement(u, now)]
      ensures err == (if dbError then Some(ExecFailed) else None)
    {
      sent := sent + [UpdateStatement(u, now)];
      err := if dbError then Some(ExecFailed) else None;
    }

    /** `UpdateProfile`: the statement of the builder, sent once. */
    method UpdateProfile(user: Uuids.Uuid, req: UpdateUserProfileRequest, now: int, dbError: bool) returns (err: Option<RepoError>)
      modifies this
      ensures sent == old(sent) + [ProfileStatement(user, req, now)]
      ensures err == (if dbError then Some(ExecFailed) else None)
    {
      var st := BuildUpdateProfile(user, req, now);
      sent := sent + [st];
      err := if dbError then Some(ExecFailed) else None;
    }

    /** `UpdateProfileImage`: the user's `avatar_url`, with `updated_at` the current instant. */
    method UpdateProfileImage(u: Users.User, now: int, dbError: bool) returns (err: Option<RepoError>)
      modifies this
      ensures sent == old(sent) + [UpdateProfileImageStatement(u, now)]
      ensures err == (if dbError then Some(ExecFailed) else None)
    {
      sent := sent + [UpdateProfileImageStatement(u, now)];
      err := if dbError then Some(ExecFailed) else None;
    }
  }
}
