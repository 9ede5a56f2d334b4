/** The HTTP side of the waiting room: the process-wide cache of lines, one per
    resource, and the `/turn`, `/token` and `/release` handlers. A handler's
    answer is a `Response`: the JSON reply (with its status) and the cookies set. */
module Server {
  import opened GoTypes
  import opened Text
  import opened Lines

  const TurnCookieName: string := "av_t"
  const SignedTurnCookieName: string := "av_tsig"
  const NoTurnMessage: string := "No turn requested."
  const NotYourTurnMessage: string := "Not your turn yet. You should wait until access granted."
  /** A comma as it reads in a cookie value that was URL-escaped when set. */
  const EscapedComma: string := "%2C"
  /** What the token decision appends to a granted turn's signed cookie. */
  const DeliveredSuffix: string := ",IN"

  datatype Cookie = Cookie(name: string, value: string)

  /** The JSON bodies the handlers answer with. */
  datatype Reply =
    | TurnIssued(resource: string, turn: string)    // {"resource", "turn"}
    | Refused(resource: string, message: string)    // {"resource", "message"}
    | AccessGranted(turn: string)                   // {"status": "access_granted", "turn"}
    | Released(resource: string, nextIn: uint32)    // {"resource", "next_in"}
  {
    function Status(): int
    {
      if Refused? then 400 else 200
    }
  }

  /** A reply and the cookies set with it, in the order they are set. */
  datatype Response = Response(reply: Reply, cookies: seq<Cookie>)

  // ---------------------------------------------------------------------------
  // The /turn rule

  /** The `/turn` answer given the signed-turn cookie: a request that carries it
      gets its value back and sets nothing; one without it gets `issued`, the turn
      just taken from the line, in decimal, set in both turn cookies. */
  function TurnResponse(resource: string, cookie: Option<string>, issued: uint32): Response
  {
    match cookie
    case Some(v) => Response(TurnIssued(resource, v), [])
    case None =>
      var turn := Decimal(issued as nat);
      Response(TurnIssued(resource, turn), [Cookie(TurnCookieName, turn), Cookie(SignedTurnCookieName, turn)])
  }

  /** A request that already holds a turn is answered the same whatever the line's counter. */
  lemma TurnReusesCookie(resource: string, v: string, t1: uint32, t2: uint32)
    ensures TurnResponse(resource, Some(v), t1) == TurnResponse(resource, Some(v), t2)
    ensures TurnResponse(resource, Some(v), t1).reply == TurnIssued(resource, v)
  {
  }

  // ---------------------------------------------------------------------------
  // The /token decision

  /** The token decision reads the line only for a signed-turn cookie that parses
      as a 32-bit decimal number. */
  predicate ConsultsLine(cookie: Option<string>)
  {
    cookie.Some? && ParseUint32(cookie.value).Some?
  }

  /** The `/token` answer given the signed-turn cookie and the line's admission
      counter: no cookie is refused; a cookie that does not parse is taken as an
      already delivered token and granted with the text before the first escaped
      comma; a parsed turn is refused while it is above `nextIn` and otherwise
      granted, with the cookie rewritten to mark the token delivered. */
  function TokenResponse(resource: string, cookie: Option<string>, nextIn: uint32): Response
  {
    match cookie
    case None => Response(Refused(resource, NoTurnMessage), [])
    case Some(v) =>
      match ParseUint32(v)
      case None => Response(AccessGranted(BeforeFirst(v, EscapedComma)), [])
      case Some(turn) =>
        if turn > nextIn then Response(Refused(resource, NotYourTurnMessage), [])
        else Response(AccessGranted(v), [Cookie(SignedTurnCookieName, v + DeliveredSuffix)])
  }

  /** Without the signed-turn cookie the answer is 400 "No turn requested.". */
  lemma TokenWithoutCookie(resource: string, nextIn: uint32)
    ensures TokenResponse(resource, None, nextIn).reply == Refused(resource, NoTurnMessage)
    ensures TokenResponse(resource, None, nextIn).reply.Status() == 400
  {
  }

  /** For a parsed turn, access is granted if and only if the turn is at most the
      admission counter; otherwise the answer is 400 "Not your turn yet...". */
  lemma TokenGrantedIff(resource: string, cookie: Option<string>, nextIn: uint32)
    requires ConsultsLine(cookie)
    ensures var turn := ParseUint32(cookie.value).value;
      var r := TokenResponse(resource, cookie, nextIn);
      (r.reply.AccessGranted? <==> turn <= nextIn) &&
      (turn <= nextIn ==> r.reply.turn == cookie.value &&
                          r.cookies == [Cookie(SignedTurnCookieName, cookie.value + ",IN")]) &&
      (turn > nextIn ==> r.reply == Refused(resource, NotYourTurnMessage) && r.reply.Status() == 400)
  {
  }

  /** A cookie the token decision does not read the line for gets the same answer
      whatever the admission counter. */
  lemma TokenIgnoresLine(resource: string, cookie: Option<string>, n1: uint32, n2: uint32)
    requires !ConsultsLine(cookie)
    ensures TokenResponse(resource, cookie, n1) == TokenResponse(resource, cookie, n2)
  {
  }

  /** Admission only grows, and a granted request stays granted with the same
      answer as the admission counter advances (short of wrap-around). */
  lemma TokenGrantStable(resource: string, cookie: Option<string>, n1: uint32, n2: uint32)
    requires n1 <= n2
    requires TokenResponse(resource, cookie, n1).reply.AccessGranted?
    ensures TokenResponse(resource, cookie, n2) == TokenResponse(resource, cookie, n1)
  {
  }

  /** The turn `/turn` issues comes back as a signed cookie that `/token` parses to
      that same turn: it is granted exactly when it is at most the admission counter. */
  lemma IssuedTurnAdmittedIff(resource: string, t: uint32, nextIn: uint32)
    ensures var issued := TurnResponse(resource, None, t);
      issued.cookies[1] == Cookie(SignedTurnCookieName, Decimal(t as nat)) &&
      TokenResponse(resource, Some(issued.cookies[1].value), nextIn) ==
        if t <= nextIn then
          Response(AccessGranted(Decimal(t as nat)), [Cookie(SignedTurnCookieName, Decimal(t as nat) + ",IN")])
        else Response(Refused(resource, NotYourTurnMessage), [])
  {
    ParseDecimal(t);
  }

  /** Once granted, the cookie reads "N,IN", which comes back URL-escaped as "N%2CIN":
      it no longer parses, so it is granted again with turn N, without consulting
      the line and without setting a cookie. */
  lemma {:induction false} TokenAfterDelivery(resource: string, t: uint32, nextIn: uint32)
    ensures var v := Decimal(t as nat) + EscapedComma + "IN";
      !ConsultsLine(Some(v)) &&
      TokenResponse(resource, Some(v), nextIn) == Response(AccessGranted(Decimal(t as nat)), [])
  {
    var d := Decimal(t as nat);
    var v := d + EscapedComma + "IN";
    ParseRejectsNonDigit(v, |d|);
    BeforeFirstAfterDigits(d, EscapedComma, "IN");
  }

  /** A decimal cookie above 2^32 - 1 fails the 32-bit parse and is therefore
      granted as if its token had been delivered, without consulting the line. */
  lemma {:induction false} TokenOutOfRangeGranted(resource: string, v: nat, nextIn: uint32)
    requires v >= Uint32Modulus
    ensures !ConsultsLine(Some(Decimal(v)))
    ensures TokenResponse(resource, Some(Decimal(v)), nextIn) == Response(AccessGranted(Decimal(v)), [])
  {
    ParseDecimalOutOfRange(v);
    BeforeFirstDigitsOnly(Decimal(v), EscapedComma);
  }

  // ---------------------------------------------------------------------------
  // The process: the cache of lines and the handlers that use it

  class Server {
    /** One line per resource, created on first use and never removed. */
    var cachedLines: map<string, Line>

    ghost predicate Valid()
      reads this
    {
      forall k :: k in cachedLines ==> cachedLines[k].id == k
    }

    constructor ()
      ensures Valid() && cachedLines == map[]
    {
      cachedLines := map[];
    }

    /** Get-or-create: a cached resource gets its stored line and the cache is
        left alone; a new resource gets a fresh line, stored under it and nowhere
        else. Either way the cache now maps the resource to the returned line. */
    method GetCachedLine(resource: string) returns (line: Line)
      requires Valid()
      modifies this
      ensures Valid()
      ensures resource in cachedLines && cachedLines[resource] == line && line.id == resource
      ensures resource in old(cachedLines) ==>
        line == old(cachedLines)[resource] && cachedLines == old(cachedLines)
      ensures resource !in old(cachedLines) ==>
        fresh(line) && fresh(line.Repr) && line.Valid() &&
        line.nextTurn == 0 && line.nextIn == 1 && line.Subscribers == [] &&
        cachedLines == old(cachedLines)[resource := line]
      ensures forall k :: k in old(cachedLines) ==> k in cachedLines && cachedLines[k] == old(cachedLines)[k]
    {
      var cached := resource in cachedLines;
      if !cached {
        line := new Line(resource);
        cachedLines := cachedLines[resource := line];
      } else {
        line := cachedLines[resource];
      }
    }

    /** `POST /lines/:resource/turn`: makes sure the resource has a line; a request
        without the signed-turn cookie takes the next turn from it, one with the
        cookie leaves the line untouched. Only the ticket counter of the line may
        change: its pools, its admission counter and its validity are kept. */
    method PostTurn(resource: string, cookie: Option<string>) returns (r: Response)
      requires Valid()
      modifies this, (if resource in cachedLines then {cachedLines[resource]} else {})`nextTurn
      ensures Valid() && resource in cachedLines
      ensures resource in old(cachedLines) ==> cachedLines == old(cachedLines)
      ensures resource !in old(cachedLines) ==>
        fresh(cachedLines[resource]) && fresh(cachedLines[resource].Repr) &&
        cachedLines[resource].Valid() && cachedLines[resource].Subscribers == [] &&
        cachedLines == old(cachedLines)[resource := cachedLines[resource]]
      ensures var line := cachedLines[resource];
        var before: uint32 := if resource in old(cachedLines) then old(cachedLines[resource].nextTurn) else 0;
        var beforeIn: uint32 := if resource in old(cachedLines) then old(cachedLines[resource].nextIn) else 1;
        line.nextTurn == (if cookie.None? then Inc32(before) else before) &&
        line.nextIn == beforeIn &&
        r == TurnResponse(resource, cookie, line.nextTurn)
    {
      var line := GetCachedLine(resource);
      var issued: uint32 := line.nextTurn;
      if cookie.None? {
        issued := line.GetNextTurn();
      }
      r := TurnResponse(resource, cookie, issued);
    }

    /** `GET /lines/:resource/token`: answers as `TokenResponse` does. The line is
        looked up (and created if missing) only when the cookie parses as a turn,
        and then only read. */
    method GetToken(resource: string, cookie: Option<string>) returns (r: Response)
      requires Valid()
      modifies this
      ensures Valid()
      ensures !ConsultsLine(cookie) ==>
        cachedLines == old(cachedLines) && forall n: uint32 :: r == TokenResponse(resource, cookie, n)
      ensures ConsultsLine(cookie) ==>
        resource in cachedLines &&
        (resource in old(cachedLines) ==> cachedLines == old(cachedLines)) &&
        (resource !in old(cachedLines) ==>
           fresh(cachedLines[resource]) && fresh(cachedLines[resource].Repr) &&
           cachedLines[resource].Valid() && cachedLines[resource].Subscribers == [] &&
           cachedLines[resource].nextTurn == 0 && cachedLines[resource].nextIn == 1 &&
           cachedLines == old(cachedLines)[resource := cachedLines[resource]]) &&
        r == TokenResponse(resource, cookie, cachedLines[resource].nextIn)
    {
      if !ConsultsLine(cookie) {
        r := TokenResponse(resource, cookie, 0);
        forall n: uint32
          ensures r == TokenResponse(resource, cookie, n)
        {
          TokenIgnoresLine(resource, cookie, 0, n);
        }
        return;
      }
      var line := GetCachedLine(resource);
      var nextIn := line.NextIn();
      r := TokenResponse(resource, cookie, nextIn);
    }

    /** `GET /lines/:resource/release`: makes sure the resource has a line, admits
        one more turn on it and answers with the new admission counter. Only the
        admission counter of the line may change. */
    method GetRelease(resource: string) returns (r: Response)
      requires Valid()
      modifies this, (if resource in cachedLines then {cachedLines[resource]} else {})`nextIn
      ensures Valid() && resource in cachedLines
      ensures resource in old(cachedLines) ==> cachedLines == old(cachedLines)
      ensures resource !in old(cachedLines) ==>
        fresh(cachedLines[resource]) && fresh(cachedLines[resource].Repr) &&
        cachedLines[resource].Valid() && cachedLines[resource].Subscribers == [] &&
        cachedLines == old(cachedLines)[resource := cachedLines[resource]]
      ensures var line := cachedLines[resource];
        var before: uint32 := if resource in old(cachedLines) then old(cachedLines[resource].nextIn) else 1;
        var beforeTurn: uint32 := if resource in old(cachedLines) then old(cachedLines[resource].nextTurn) else 0;
        line.nextIn == Inc32(before) && line.nextTurn == beforeTurn &&
        r == Response(Released(resource, line.nextIn), [])
    {
      var line := GetCachedLine(resource);
      var nextIn := line.ReleaseTurn();
      r := Response(Released(resource, nextIn), []);
    }
  }
}
