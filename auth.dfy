/**
  The two request gates: `verifyToken` takes the bearer token out of the
  `Authorization` header and has it checked; `isAdmin` lets only admins and
  developers through. Signature checking itself is a parameter (`verify`),
  and so is the outcome of the user lookup.
 */
module Auth {
  import opened Common

  /** `header.split(' ')`: the pieces between single spaces, empty pieces included. */
  function Split(s: string): (r: seq<string>)
    ensures |r| >= 1
    ensures forall i :: 0 <= i < |r| ==> ' ' !in r[i]
    ensures Join(r) == s
  {
    if s == [] then [[]]
    else if s[0] == ' ' then [[]] + Split(s[1..])
    else
      var rest := Split(s[1..]);
      assert forall i :: 1 <= i < |rest| ==> ([[s[0]] + rest[0]] + rest[1..])[i] == rest[i];
      [[s[0]] + rest[0]] + rest[1..]
  }

  /** The pieces put back together with single spaces between them. */
  function Join(fields: seq<string>): string
    requires |fields| >= 1
  {
    if |fields| == 1 then fields[0] else fields[0] + " " + Join(fields[1..])
  }

  lemma {:induction false} SplitPiece(a: string, t: string)
    requires ' ' !in a
    ensures Split(a + " " + t) == [a] + Split(t)
  {
    if a != [] {
      assert (a + " " + t)[1..] == a[1..] + " " + t;
      SplitPiece(a[1..], t);
      assert [a[0]] + a[1..] == a;
    } else {
      assert a + " " + t == " " + t;
    }
  }

  lemma {:induction false} SplitSpaceless(a: string)
    requires ' ' !in a
    ensures Split(a) == [a]
  {
    if a != [] {
      SplitSpaceless(a[1..]);
      assert [a[0]] + a[1..] == a;
    }
  }

  /** Splitting undoes joining, for pieces without spaces. */
  lemma {:induction false} SplitJoin(fields: seq<string>)
    requires |fields| >= 1
    requires forall i :: 0 <= i < |fields| ==> ' ' !in fields[i]
    ensures Split(Join(fields)) == fields
  {
    if |fields| == 1 {
      SplitSpaceless(fields[0]);
    } else {
      SplitPiece(fields[0], Join(fields[1..]));
      SplitJoin(fields[1..]);
    }
  }

  /**
    `authHeader && authHeader.split(' ')[1]`, then `if (!token)`: the second
    piece of the header, and nothing when the header is missing or empty,
    has no second piece, or its second piece is empty.
   */
  function Token(header: Option<string>): (r: Option<string>)
    ensures r.Some? ==> r.value != [] && ' ' !in r.value
  {
    if header.None? || header.value == [] then None
    else
      var fields := Split(header.value);
      if |fields| >= 2 && fields[1] != [] then Some(fields[1]) else None
  }

  /** What the token is for every header made of space-free pieces. */
  lemma TokenOfPieces(fields: seq<string>)
    requires |fields| >= 1
    requires forall i :: 0 <= i < |fields| ==> ' ' !in fields[i]
    ensures Token(Some(Join(fields))) == if |fields| >= 2 && fields[1] != [] then Some(fields[1]) else None
  {
    SplitJoin(fields);
  }

  /** `Bearer <token>` yields the token. */
  lemma BearerToken(scheme: string, token: string)
    requires ' ' !in scheme && ' ' !in token && token != []
    ensures Token(Some(scheme + " " + token)) == Some(token)
  {
    TokenOfPieces([scheme, token]);
  }

  /** A header without a space carries no token. */
  lemma NoSpaceNoToken(header: string)
    requires ' ' !in header
    ensures Token(Some(header)) == None
  {
    SplitSpaceless(header);
  }

  datatype TokenOutcome = Authenticated(userId: Id) | Rejected(status: int)

  /**
    `verifyToken`: no token, or a token the verifier refuses (`jwt.verify`
    throws), is 401; otherwise the decoded user id is recorded and the request
    continues.
   */
  function VerifyToken(header: Option<string>, verify: string -> Option<Id>): (r: TokenOutcome)
    ensures r.Rejected? ==> r.status == UNAUTHORIZED
    ensures r.Authenticated? <==> Token(header).Some? && verify(Token(header).value).Some?
    ensures r.Authenticated? ==> r.userId == verify(Token(header).value).value
  {
    match Token(header)
    case None => Rejected(UNAUTHORIZED)
    case Some(t) =>
      match verify(t)
      case None => Rejected(UNAUTHORIZED)
      case Some(uid) => Authenticated(uid)
  }

  /** The `role` enumeration of the user schema. */
  datatype Role = Admin | Seller | Developer

  /** The outcome of `User.findById`: it threw, found nobody, or found a user with this role. */
  datatype UserLookup = LookupError | NoUser | Found(role: Role)

  datatype RoleOutcome = Allowed | Refused(status: int)

  /**
    `isAdmin`: the request continues exactly when the user exists and is an
    admin or a developer; a seller or a missing user gets 403, a failed
    lookup 500.
   */
  function IsAdmin(lookup: UserLookup): (r: RoleOutcome)
    ensures r.Allowed? <==> lookup.Found? && (lookup.role == Admin || lookup.role == Developer)
    ensures r.Refused? ==> (r.status == SERVER_ERROR <==> lookup.LookupError?)
    ensures r.Refused? ==> (r.status == FORBIDDEN <==> !lookup.LookupError?)
  {
    match lookup
    case LookupError => Refused(SERVER_ERROR)
    case NoUser => Refused(FORBIDDEN)
    case Found(role) => if role == Admin || role == Developer then Allowed else Refused(FORBIDDEN)
  }
}
