/**
 * Password reset links: issued and checked by internal/auth/reset.go, and spent once by
 * internal/api/passwordreset.go. Times are nanoseconds.
 */
module Resets {
  import opened Prelude
  import opened Text

  const SECOND := 1_000_000_000
  const RESET_LIFETIME := 3600 * SECOND
  const INT64 := 0x8000_0000_0000_0000

  type User = nat

  /** uuid, base64url, the MAC under the server's secret, and the hash of a token. */
  datatype Codec = Codec(
    userText: User -> string, parseUser: string -> Option<User>,
    encode: string -> string, decode: string -> Option<string>,
    sign: string -> string, identity: string -> string) {

    /** What is decoded is what was encoded, and the separators cannot occur inside the parts. */
    ghost predicate Lawful() {
      && (forall u: User :: parseUser(userText(u)) == Some(u) && '.' !in userText(u))
      && (forall s :: decode(encode(s)) == Some(s) && '~' !in encode(s))
      && (forall a, b :: identity(a) == identity(b) ==> a == b)
    }
  }

  datatype ParseError = Malformed | Expired

  /** Time.Unix: whole seconds, rounded down. */
  function Seconds(at: int): int { at / SECOND }

  function IssueReset(c: Codec, user: User, now: int): string {
    var payload := c.userText(user) + "." + FormatInt(Seconds(now + RESET_LIFETIME));
    var encoded := c.encode(payload);
    encoded + "~" + c.sign(encoded)
  }

  function ParseReset(c: Codec, token: string, now: int): Result<(User, string), ParseError> {
    var parts := Cut(token, '~');
    if parts.None? then Err(Malformed) else
    var (encoded, signature) := parts.value;
    if signature != c.sign(encoded) then Err(Malformed) else
    var raw := c.decode(encoded);
    if raw.None? then Err(Malformed) else
    var halves := Cut(raw.value, '.');
    if halves.None? then Err(Malformed) else
    var user := c.parseUser(halves.value.0);
    if user.None? then Err(Malformed) else
    var seconds := ParseInt(halves.value.1);
    if seconds.None? || !(-INT64 <= seconds.value < INT64) then Err(Malformed)
    else if !(now < seconds.value * SECOND) then Err(Expired)
    else Ok((user.value, c.identity(token)))
  }

  /** When a link issued at this time stops working. */
  function Expiry(issuedAt: int): int { Seconds(issuedAt + RESET_LIFETIME) * SECOND }

  /** ParseReset undoes IssueReset exactly until the link's own expiry, which is within the lifetime. */
  lemma IssuedLinksParseUntilExpiry(c: Codec, user: User, issuedAt: int, now: int)
    requires c.Lawful() && -INT64 <= Seconds(issuedAt + RESET_LIFETIME) < INT64
    ensures var token := IssueReset(c, user, issuedAt);
            ParseReset(c, token, now) ==
              if now < Expiry(issuedAt) then Ok((user, c.identity(token))) else Err(Expired)
    ensures issuedAt + RESET_LIFETIME - SECOND < Expiry(issuedAt) <= issuedAt + RESET_LIFETIME
  {
    hide FormatInt, ParseInt;
    var seconds := Seconds(issuedAt + RESET_LIFETIME);
    var payload := c.userText(user) + "." + FormatInt(seconds);
    var encoded := c.encode(payload);
    IntegersReadBack(seconds);
    CutAtMark(c.userText(user), '.', FormatInt(seconds));
    CutAtMark(encoded, '~', c.sign(encoded));
  }

  /** One of ours: signed as a whole, and inside for this account until this second. */
  ghost predicate SignedFor(c: Codec, token: string, user: User, seconds: int) {
    exists encoded, name, digits ::
      && '~' !in encoded && token == encoded + "~" + c.sign(encoded)
      && '.' !in name && c.decode(encoded) == Some(name + "." + digits)
      && c.parseUser(name) == Some(user)
      && ParseInt(digits) == Some(seconds) && -INT64 <= seconds < INT64
  }

  lemma SignedParses(c: Codec, token: string, now: int, user: User, seconds: int)
    requires SignedFor(c, token, user, seconds)
    ensures ParseReset(c, token, now)
            == if now < seconds * 1_000_000_000 then Ok((user, c.identity(token))) else Err(Expired)
  {
    hide ParseInt;
    var encoded, name, digits :|
      && '~' !in encoded && token == encoded + "~" + c.sign(encoded)
      && '.' !in name && c.decode(encoded) == Some(name + "." + digits)
      && c.parseUser(name) == Some(user)
      && ParseInt(digits) == Some(seconds) && -INT64 <= seconds < INT64;
    CutAtMark(encoded, '~', c.sign(encoded));
    CutAtMark(name, '.', digits);
  }

  lemma ParsedIsSigned(c: Codec, token: string, now: int) returns (user: User, seconds: int)
    ensures ParseReset(c, token, now) != Err(Malformed) ==> SignedFor(c, token, user, seconds)
  {
    hide ParseInt;
    user, seconds := 0, 0;
    if ParseReset(c, token, now) != Err(Malformed) {
      CutIs(token, '~');
      var (encoded, signature) := Cut(token, '~').value;
      var raw := c.decode(encoded).value;
      CutIs(raw, '.');
      var (name, digits) := Cut(raw, '.').value;
      user, seconds := c.parseUser(name).value, ParseInt(digits).value;
      assert token == encoded + "~" + c.sign(encoded) && c.decode(encoded) == Some(name + "." + digits);
    }
  }

  /** A link is taken until its second, refused as expired from then on, and refused as none of ours if it is not signed. */
  lemma ParsesIff(c: Codec, token: string, now: int, user: User, id: string)
    ensures ParseReset(c, token, now) == Ok((user, id))
            <==> id == c.identity(token) && exists seconds :: SignedFor(c, token, user, seconds) && now < seconds * 1_000_000_000
    ensures ParseReset(c, token, now) == Err(Expired)
            <==> exists u, seconds :: SignedFor(c, token, u, seconds) && now >= seconds * 1_000_000_000
    ensures ParseReset(c, token, now) == Err(Malformed) <==> forall u, seconds :: !SignedFor(c, token, u, seconds)
  {
    hide ParseReset, SignedFor;
    var whose, until := ParsedIsSigned(c, token, now);
    forall u: User, seconds: int | SignedFor(c, token, u, seconds)
      ensures ParseReset(c, token, now)
              == if now < seconds * 1_000_000_000 then Ok((u, c.identity(token))) else Err(Expired)
    {
      SignedParses(c, token, now, u, seconds);
    }
  }

  /** With another signature behind its first separator it is none of ours, at any time. */
  lemma ForgedLinksAreRefused(c: Codec, encoded: string, signature: string, now: int)
    requires '~' !in encoded && signature != c.sign(encoded)
    ensures ParseReset(c, encoded + "~" + signature, now) == Err(Malformed)
  {
    CutAtMark(encoded, '~', signature);
  }

  // ----- the links that have been used -----

  function Kept(spent: map<string, int>, now: int): map<string, int> {
    map id | id in spent && now < spent[id] :: spent[id]
  }

  function Spent(spent: map<string, int>, id: string, now: int): map<string, int> {
    var kept := Kept(spent, now);
    if id in kept then kept else kept[id := now + RESET_LIFETIME]
  }

  class UsedResets {
    var spent: map<string, int>

    constructor ()
      ensures spent == map[]
    {
      spent := map[];
    }

    /** Records a token and reports whether it was already used. */
    method Spend(id: string, now: int) returns (already: bool)
      modifies this
      ensures already == (id in Kept(old(spent), now))
      ensures spent == Spent(old(spent), id, now)
    {
      var keys := spent.Keys;
      while keys != {}
        invariant keys <= old(spent).Keys
        invariant forall k :: k in spent <==> k in old(spent) && (k in keys || now < old(spent)[k])
        invariant forall k | k in spent :: spent[k] == old(spent)[k]
        decreases |keys|
      {
        var key :| key in keys;
        keys := keys - {key};
        if !(now < spent[key]) {
          spent := spent - {key};
        }
      }
      assert spent == Kept(old(spent), now);
      if id in spent {
        return true;
      }
      spent := spent[id := now + RESET_LIFETIME];
      return false;
    }
  }

  // ----- the handler -----

  datatype Outcome = LinkExpired | LinkInvalid | PasswordTooWeak | PasswordSet

  /** A request to set a password: the link, whether the password is complex enough, and the two readings of the clock. */
  datatype Request = Request(token: string, strong: bool, parsedAt: int, spentAt: int)

  function OutcomeOf(c: Codec, spent: map<string, int>, r: Request): Outcome {
    match ParseReset(c, r.token, r.parsedAt)
    case Err(Expired) => LinkExpired
    case Err(Malformed) => LinkInvalid
    case Ok(parsed) =>
      if !r.strong then PasswordTooWeak
      else if parsed.1 in Kept(spent, r.spentAt) then LinkInvalid
      else PasswordSet
  }

  /** What the store is after a request: only one that got past the password check touches it. */
  function StoreAfter(c: Codec, spent: map<string, int>, r: Request): map<string, int> {
    match ParseReset(c, r.token, r.parsedAt)
    case Err(_) => spent
    case Ok(parsed) => if r.strong then Spent(spent, parsed.1, r.spentAt) else spent
  }

  /** Signed, and in time when it is parsed. */
  ghost predicate InTime(c: Codec, r: Request) {
    exists user, seconds :: SignedFor(c, r.token, user, seconds) && r.parsedAt < seconds * 1_000_000_000
  }

  /**
   * What setting a password answers: a link out of time has expired and one that is not signed is
   * invalid, whatever the password; a weak password is told before the link is spent; and it is set if
   * and only if no earlier use of the link is remembered.
   */
  lemma OutcomeIff(c: Codec, spent: map<string, int>, r: Request)
    ensures var outcome, id := OutcomeOf(c, spent, r), c.identity(r.token);
      && (outcome == LinkExpired
          <==> exists user, seconds :: SignedFor(c, r.token, user, seconds) && r.parsedAt >= seconds * 1_000_000_000)
      && (outcome == PasswordTooWeak <==> InTime(c, r) && !r.strong)
      && (outcome == PasswordSet <==> InTime(c, r) && r.strong && !(id in spent && r.spentAt < spent[id]))
  {
    ParsedIdentity(c, r.token, r.parsedAt);
    if ParseReset(c, r.token, r.parsedAt).Ok? {
      ParsesIff(c, r.token, r.parsedAt, ParseReset(c, r.token, r.parsedAt).value.0, c.identity(r.token));
    } else {
      ParsesIff(c, r.token, r.parsedAt, 0, c.identity(r.token));
      forall user: User, seconds: int | SignedFor(c, r.token, user, seconds) ensures r.parsedAt >= seconds * 1_000_000_000 {
        SignedParses(c, r.token, r.parsedAt, user, seconds);
      }
    }
    hide ParseReset, SignedFor;
  }

  /**
   * What the store is afterwards: as it was, unless a link in time came with a strong password. Then it
   * is what has not run out, and this link until an hour later if it was not there.
   */
  lemma StoreIs(c: Codec, spent: map<string, int>, r: Request)
    ensures var after, id := StoreAfter(c, spent, r), c.identity(r.token);
      if InTime(c, r) && r.strong then
        && (forall k :: k in after <==> k == id || (k in spent && r.spentAt < spent[k]))
        && (forall k | k in spent && r.spentAt < spent[k] :: after[k] == spent[k])
        && (!(id in spent && r.spentAt < spent[id]) ==> after[id] == r.spentAt + 3600 * 1_000_000_000)
      else after == spent
  {
    ParsedIdentity(c, r.token, r.parsedAt);
    if ParseReset(c, r.token, r.parsedAt).Ok? {
      ParsesIff(c, r.token, r.parsedAt, ParseReset(c, r.token, r.parsedAt).value.0, c.identity(r.token));
    } else {
      forall user: User, seconds: int | SignedFor(c, r.token, user, seconds) ensures r.parsedAt >= seconds * 1_000_000_000 {
        SignedParses(c, r.token, r.parsedAt, user, seconds);
      }
    }
    hide ParseReset, SignedFor;
  }

  class ResetHandlers {
    const codec: Codec
    const used: UsedResets

    constructor (codec: Codec, used: UsedResets)
      ensures this.codec == codec && this.used == used
    {
      this.codec := codec;
      this.used := used;
    }

    method Complete(r: Request) returns (outcome: Outcome)
      modifies used
      ensures outcome == OutcomeOf(codec, old(used.spent), r)
      ensures used.spent == StoreAfter(codec, old(used.spent), r)
      ensures forall encoded, signature ::
        r.token == encoded + "~" + signature && '~' !in encoded && signature != codec.sign(encoded) ==>
          outcome == LinkInvalid && used.spent == old(used.spent)
    {
      forall encoded, signature | r.token == encoded + "~" + signature && '~' !in encoded && signature != codec.sign(encoded)
        ensures ParseReset(codec, r.token, r.parsedAt) == Err(Malformed)
      {
        ForgedLinksAreRefused(codec, encoded, signature, r.parsedAt);
      }
      var parsed := ParseReset(codec, r.token, r.parsedAt);
      match parsed {
        case Err(Expired) => return LinkExpired;
        case Err(Malformed) => return LinkInvalid;
        case Ok(_) =>
      }
      if !r.strong {
        return PasswordTooWeak;
      }
      var already := used.Spend(parsed.value.1, r.spentAt);
      return if already then LinkInvalid else PasswordSet;
    }
  }

  // ----- runs without a restart -----

  /** Requests in the order they reach the store. */
  predicate Orderly(requests: seq<Request>, from: int)
    decreases |requests|
  {
    requests != [] ==> from <= requests[0].spentAt && requests[0].parsedAt <= requests[0].spentAt
                       && Orderly(requests[1..], requests[0].spentAt)
  }

  function StoreAfterAll(c: Codec, spent: map<string, int>, requests: seq<Request>): map<string, int>
    decreases |requests|
  {
    if requests == [] then spent else StoreAfterAll(c, StoreAfter(c, spent, requests[0]), requests[1..])
  }

  /** A spent entry stays as it is until its own end. */
  lemma {:induction false} SpentIsRemembered(c: Codec, spent: map<string, int>, requests: seq<Request>, id: string)
    requires id in spent && forall r | r in requests :: r.spentAt < spent[id]
    ensures var after := StoreAfterAll(c, spent, requests); id in after && after[id] == spent[id]
    decreases |requests|
  {
    hide ParseReset;
    if requests != [] {
      assert requests[0] in requests;
      SpentIsRemembered(c, StoreAfter(c, spent, requests[0]), requests[1..], id);
    }
  }

  /** The store holds only what was spent within the last lifetime. */
  predicate Recent(spent: map<string, int>, now: int) {
    forall id | id in spent :: spent[id] <= now + RESET_LIFETIME
  }

  lemma SpendingKeepsOnlyRecent(spent: map<string, int>, id: string, before: int, now: int)
    requires Recent(spent, before) && before <= now
    ensures var after := Spent(spent, id, now);
            Recent(after, now) && id in after
            && forall k | k in after :: now - RESET_LIFETIME < after[k] - RESET_LIFETIME <= now
  {}

  /** A genuine link was issued before it was first used: the MAC lets no other through. */
  ghost predicate Genuine(c: Codec, r: Request) {
    exists user: User, issuedAt: int ::
      && issuedAt <= r.parsedAt && -INT64 <= Seconds(issuedAt + RESET_LIFETIME) < INT64
      && r.token == IssueReset(c, user, issuedAt)
  }

  lemma GenuineLinkExpires(c: Codec, r: Request)
    requires c.Lawful() && Genuine(c, r) && ParseReset(c, r.token, r.parsedAt).Ok?
    ensures forall at :: ParseReset(c, r.token, at).Ok? ==>
      at < r.parsedAt + RESET_LIFETIME && ParseReset(c, r.token, at).value.1 == c.identity(r.token)
  {
    hide ParseReset, IssueReset;
    var user: User, issuedAt: int :|
      && issuedAt <= r.parsedAt && -INT64 <= Seconds(issuedAt + RESET_LIFETIME) < INT64
      && r.token == IssueReset(c, user, issuedAt);
    forall at
      ensures ParseReset(c, r.token, at).Ok? ==>
        at < r.parsedAt + RESET_LIFETIME && ParseReset(c, r.token, at).value.1 == c.identity(r.token)
    {
      IssuedLinksParseUntilExpiry(c, user, issuedAt, at);
    }
  }

  /** What the i-th request of a run since the start comes to. */
  function OutcomeAt(c: Codec, requests: seq<Request>, i: nat): Outcome
    requires i < |requests|
  {
    OutcomeOf(c, StoreAfterAll(c, map[], requests[..i]), requests[i])
  }

  lemma {:induction false} StoreConcat(c: Codec, spent: map<string, int>, a: seq<Request>, b: seq<Request>)
    ensures StoreAfterAll(c, spent, a + b) == StoreAfterAll(c, StoreAfterAll(c, spent, a), b)
    decreases |a|
  {
    hide StoreAfter;
    if a == [] {
      assert a + b == b;
    } else {
      assert (a + b)[1..] == a[1..] + b;
      StoreConcat(c, StoreAfter(c, spent, a[0]), a[1..], b);
    }
  }

  lemma {:induction false} OrderlyIsOrdered(requests: seq<Request>, from: int)
    requires Orderly(requests, from)
    ensures forall i, j | 0 <= i <= j < |requests| :: from <= requests[i].spentAt <= requests[j].spentAt
    ensures forall r | r in requests :: r.parsedAt <= r.spentAt
    decreases |requests|
  {
    if requests != [] {
      OrderlyIsOrdered(requests[1..], requests[0].spentAt);
      forall i, j | 0 <= i <= j < |requests|
        ensures from <= requests[i].spentAt <= requests[j].spentAt
      {
        if i > 0 { assert requests[i] == requests[1..][i - 1] && requests[j] == requests[1..][j - 1]; }
        else if j > 0 { assert requests[j] == requests[1..][j - 1]; }
      }
    }
  }

  /** After a link has set a password, the store answers for it until a lifetime later. */
  lemma UsedUntilALifetimeLater(c: Codec, requests: seq<Request>, from: int, i: nat, j: nat)
    requires c.Lawful() && Orderly(requests, from) && i < j < |requests|
    requires OutcomeAt(c, requests, i) == PasswordSet
    requires requests[j].spentAt < requests[i].spentAt + RESET_LIFETIME
    ensures var id, store := ParseReset(c, requests[i].token, requests[i].parsedAt).value.1,
                             StoreAfterAll(c, map[], requests[..j]);
            id in Kept(store, requests[j].spentAt)
  {
    hide ParseReset, Orderly, StoreAfterAll;
    var r := requests[i];
    var id := ParseReset(c, r.token, r.parsedAt).value.1;
    var before, between := requests[..i], requests[i + 1..j];
    var store := StoreAfterAll(c, map[], before);
    var spent := StoreAfter(c, store, r);
    assert id in spent && spent[id] == r.spentAt + RESET_LIFETIME;
    hide StoreAfter;
    OrderlyIsOrdered(requests, from);
    forall q | q in between
      ensures q.spentAt < spent[id]
    {
      var k :| 0 <= k < |between| && between[k] == q;
      assert q == requests[i + 1 + k];
    }
    SpentIsRemembered(c, spent, between, id);
    assert requests[..j] == before + ([r] + between);
    StoreConcat(c, map[], before, [r] + between);
    OneFirst(c, store, r, between);
  }

  lemma OneFirst(c: Codec, spent: map<string, int>, r: Request, rest: seq<Request>)
    ensures StoreAfterAll(c, spent, [r] + rest) == StoreAfterAll(c, StoreAfter(c, spent, r), rest)
  {
    hide StoreAfter;
    assert ([r] + rest)[1..] == rest;
  }

  /** With one reading of the clock per request, no link sets two passwords. */
  lemma EachLinkWorksOnce(c: Codec, requests: seq<Request>, from: int, i: nat, j: nat)
    requires c.Lawful() && Orderly(requests, from) && i < j < |requests|
    requires Genuine(c, requests[i]) && requests[j].parsedAt == requests[j].spentAt
    requires OutcomeAt(c, requests, i) == PasswordSet && OutcomeAt(c, requests, j) == PasswordSet
    ensures requests[i].token != requests[j].token
  {
    hide ParseReset, Genuine, StoreAfterAll, Orderly;
    if requests[i].token == requests[j].token {
      OrderlyIsOrdered(requests, from);
      assert requests[i] in requests;
      GenuineLinkExpires(c, requests[i]);
      UsedUntilALifetimeLater(c, requests, from, i, j);
    }
  }

  /** The handler reads it twice: a link parsed in its last moment and spent a lifetime after its first use works again. */
  lemma TwoReadingsSpendTwice(c: Codec, user: User)
    requires c.Lawful()
    ensures var token := IssueReset(c, user, 0);
            var requests := [Request(token, true, 0, 0), Request(token, true, RESET_LIFETIME - 1, RESET_LIFETIME)];
            && Orderly(requests, 0) && Genuine(c, requests[0])
            && OutcomeAt(c, requests, 0) == PasswordSet && OutcomeAt(c, requests, 1) == PasswordSet
  {
    hide ParseReset, IssueReset;
    var token := IssueReset(c, user, 0);
    var first, second := Request(token, true, 0, 0), Request(token, true, RESET_LIFETIME - 1, RESET_LIFETIME);
    IssuedLinksParseUntilExpiry(c, user, 0, 0);
    IssuedLinksParseUntilExpiry(c, user, 0, RESET_LIFETIME - 1);
    var requests := [first, second];
    assert requests[..0] == [] && requests[..1] == [first] && requests[1..] == [second] && [first][1..] == [];
    assert StoreAfterAll(c, map[], [first]) == StoreAfter(c, map[], first) == map[c.identity(token) := RESET_LIFETIME];
    assert Orderly([second], 0) && Orderly(requests, 0);
    assert first.token == IssueReset(c, user, 0) && Seconds(0 + RESET_LIFETIME) == 3600;
    assert Genuine(c, first);
  }

  /** What parses is known to the store by its own token. */
  lemma ParsedIdentity(c: Codec, token: string, now: int)
    ensures ParseReset(c, token, now).Ok? ==> ParseReset(c, token, now).value.1 == c.identity(token)
  {}

  /**
   * The exact condition, for two uses of a link with others between them: a request that gets as far
   * as the store succeeds again if and only if it is spent a lifetime or more after the first.
   */
  lemma WorksAgainIff(c: Codec, requests: seq<Request>, from: int, i: nat, j: nat)
    requires c.Lawful() && Orderly(requests, from) && i < j < |requests|
    requires Genuine(c, requests[i]) && OutcomeAt(c, requests, i) == PasswordSet
    requires requests[j].token == requests[i].token && requests[j].strong
    requires ParseReset(c, requests[j].token, requests[j].parsedAt).Ok?
    requires forall k | i < k < j :: requests[k].token != requests[i].token
    ensures OutcomeAt(c, requests, j) == PasswordSet <==> requests[j].spentAt >= requests[i].spentAt + RESET_LIFETIME
  {
    hide ParseReset, Genuine, Orderly;
    GenuineLinkExpires(c, requests[i]);
    if requests[j].spentAt < requests[i].spentAt + RESET_LIFETIME {
      UsedUntilALifetimeLater(c, requests, from, i, j);
    } else {
      var id, r := c.identity(requests[i].token), requests[i];
      var before, between := requests[..i], requests[i + 1..j];
      var spent := StoreAfter(c, StoreAfterAll(c, map[], before), r);
      assert requests[..j] == before + ([r] + between);
      StoreConcat(c, map[], before, [r] + between);
      assert ([r] + between)[1..] == between;
      forall q | q in between
        ensures ParseReset(c, q.token, q.parsedAt).Ok? ==> ParseReset(c, q.token, q.parsedAt).value.1 != id
      {
        var k :| 0 <= k < |between| && between[k] == q;
        assert q == requests[i + 1 + k];
        ParsedIdentity(c, q.token, q.parsedAt);
      }
      OthersLeaveItAlone(c, spent, between, id, r.spentAt + RESET_LIFETIME);
    }
  }

  lemma {:induction false} OthersLeaveItAlone(c: Codec, spent: map<string, int>, requests: seq<Request>, id: string, end: int)
    requires forall r | r in requests && ParseReset(c, r.token, r.parsedAt).Ok? ::
      ParseReset(c, r.token, r.parsedAt).value.1 != id
    requires id in spent ==> spent[id] == end
    ensures var after := StoreAfterAll(c, spent, requests); id in after ==> after[id] == end
    decreases |requests|
  {
    hide ParseReset;
    if requests != [] {
      assert requests[0] in requests;
      OthersLeaveItAlone(c, StoreAfter(c, spent, requests[0]), requests[1..], id, end);
    }
  }
}
