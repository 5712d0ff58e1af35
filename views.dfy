/**
  The login view: a patient sends a national ID and a phone number; when some
  stored record has both, the view answers 200 with a token pair issued for
  that record, and otherwise 400 with one fixed error message.

  The view reads the store's rows and changes nothing. Token issuing is an
  external signer, passed in as the function `tokensFor`.
*/
module Views {
  import opened Wrappers
  import opened Models

  /** The refresh and access tokens issued for a user. */
  datatype Tokens = Tokens(refresh: string, access: string)

  /** The body of a login response: the token pair, or an `error` message. */
  datatype Body = TokenBody(tokens: Tokens) | ErrorBody(error: string)

  datatype Response = Response(status: int, body: Body)

  /** The one message of every failed login ("the information entered is invalid"). */
  const InvalidCredentials: string := "اطلاعات وارد شده نامعتبر است"

  /**
    Whether a row passes the query filter `national_id=nid, phone_number=phone`.
    A field missing from the request (None) matches no row, because both
    columns are non-null.
  */
  predicate Matches(row: Record, nid: Option<string>, phone: Option<string>)
  {
    nid == Some(row.nationalId) && phone == Some(row.phoneNumber)
  }

  /** Row `k` is the first row, in store order, that matches the filter. */
  predicate FirstMatchAt(rows: seq<Record>, k: int, nid: Option<string>, phone: Option<string>)
  {
    0 <= k < |rows| && Matches(rows[k], nid, phone) &&
    forall i :: 0 <= i < k ==> !Matches(rows[i], nid, phone)
  }

  /** `.filter(...).first()` over `rows[from..]`: the position of the first matching row, if any. */
  function FirstMatchFrom(rows: seq<Record>, nid: Option<string>, phone: Option<string>, from: nat): (k: Option<nat>)
    requires from <= |rows|
    ensures k.Some? ==> from <= k.value < |rows| && Matches(rows[k.value], nid, phone) &&
                        forall i :: from <= i < k.value ==> !Matches(rows[i], nid, phone)
    ensures k.None? ==> forall i :: from <= i < |rows| ==> !Matches(rows[i], nid, phone)
    decreases |rows| - from
  {
    if from == |rows| then None
    else if Matches(rows[from], nid, phone) then Some(from)
    else FirstMatchFrom(rows, nid, phone, from + 1)
  }

  /**
    `LoginView.post`: the first row matching both fields gets its tokens back
    with status 200; when no row matches, the answer is status 400 with the
    fixed error. Neither activity nor admin flags are consulted.
  */
  function Login(rows: seq<Record>, nid: Option<string>, phone: Option<string>, tokensFor: Record -> Tokens): (r: Response)
    ensures r.status == 200 <==> exists i :: 0 <= i < |rows| && Matches(rows[i], nid, phone)
    ensures r.status != 200 ==> r == Response(400, ErrorBody(InvalidCredentials))
    ensures r.status == 200 ==>
              exists k :: FirstMatchAt(rows, k, nid, phone) && r.body == TokenBody(tokensFor(rows[k]))
  {
    match FirstMatchFrom(rows, nid, phone, 0)
    case Some(k) => Response(200, TokenBody(tokensFor(rows[k])))
    case None => Response(400, ErrorBody(InvalidCredentials))
  }

  /** Every failed login gives the same response, whatever the store, the request or the reason. */
  lemma FailuresAlike(rows1: seq<Record>, nid1: Option<string>, phone1: Option<string>, t1: Record -> Tokens,
                      rows2: seq<Record>, nid2: Option<string>, phone2: Option<string>, t2: Record -> Tokens)
    requires Login(rows1, nid1, phone1, t1).status != 200
    requires Login(rows2, nid2, phone2, t2).status != 200
    ensures Login(rows1, nid1, phone1, t1) == Login(rows2, nid2, phone2, t2)
  {
  }

  /**
    Matching is joint: a request whose national ID belongs to one record and
    whose phone number belongs to another (or to none) fails when no single
    record holds both.
  */
  lemma JointMatchOnly(rows: seq<Record>, nid: string, phone: string, tokensFor: Record -> Tokens)
    requires forall i :: 0 <= i < |rows| ==> rows[i].nationalId != nid || rows[i].phoneNumber != phone
    ensures Login(rows, Some(nid), Some(phone), tokensFor) == Response(400, ErrorBody(InvalidCredentials))
  {
  }

  /** A request that leaves out either field fails. */
  lemma MissingFieldFails(rows: seq<Record>, nid: Option<string>, phone: Option<string>, tokensFor: Record -> Tokens)
    requires nid.None? || phone.None?
    ensures Login(rows, nid, phone, tokensFor) == Response(400, ErrorBody(InvalidCredentials))
  {
  }

  /** Two stores that hold the same identity pairs row by row. */
  predicate SameIdentities(rows1: seq<Record>, rows2: seq<Record>)
  {
    |rows1| == |rows2| &&
    forall i :: 0 <= i < |rows1| ==>
      rows1[i].nationalId == rows2[i].nationalId && rows1[i].phoneNumber == rows2[i].phoneNumber
  }

  /** The first match depends only on the identity pairs of the rows. */
  lemma FirstMatchByIdentity(rows1: seq<Record>, rows2: seq<Record>, nid: Option<string>,
                              phone: Option<string>, from: nat)
    requires SameIdentities(rows1, rows2)
    requires from <= |rows1|
    ensures FirstMatchFrom(rows1, nid, phone, from) == FirstMatchFrom(rows2, nid, phone, from)
  {
  }

  /**
    Login ignores every field but the identity pair: changing flags
    (`is_active`, `is_admin`), demographics or instructions changes neither
    whether it succeeds nor which row it picks.
  */
  lemma LoginByIdentityOnly(rows1: seq<Record>, rows2: seq<Record>, nid: Option<string>, phone: Option<string>,
                            tokensFor: Record -> Tokens)
    requires SameIdentities(rows1, rows2)
    ensures Login(rows1, nid, phone, tokensFor).status == Login(rows2, nid, phone, tokensFor).status
    ensures forall k :: FirstMatchAt(rows1, k, nid, phone) <==> FirstMatchAt(rows2, k, nid, phone)
  {
  }

  /**
    In a store that keeps its uniqueness invariant, at most one row matches, so
    a login with a stored pair returns exactly that row's tokens.
  */
  lemma LoginFindsTheRecord(rows: seq<Record>, k: nat, tokensFor: Record -> Tokens)
    requires UniqueIdentities(rows)
    requires k < |rows|
    ensures Login(rows, Some(rows[k].nationalId), Some(rows[k].phoneNumber), tokensFor)
         == Response(200, TokenBody(tokensFor(rows[k])))
  {
  }

  /** The login scenarios for a store holding one patient. */
  lemma LoginScenarios(patient: Record, tokensFor: Record -> Tokens)
    requires patient.nationalId == "0012345678" && patient.phoneNumber == "09120000000"
    ensures Login([patient], Some("0012345678"), Some("09120000000"), tokensFor)
         == Response(200, TokenBody(tokensFor(patient)))
    ensures Login([patient], Some("0012345678"), Some("09129999999"), tokensFor)
         == Response(400, ErrorBody(InvalidCredentials))
    ensures Login([patient], Some("0099999999"), Some("09129999999"), tokensFor)
         == Response(400, ErrorBody(InvalidCredentials))
  {
  }
}
