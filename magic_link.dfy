/**
 * One-time login links (src/app/api/magic-link/route.js). POST issues a token that is unused and
 * lives one hour; GET redeems it at most once, marking it used and recording a successful login.
 *
 * `crypto.randomBytes(32)` is the parameter `random`; times are seconds and `now` is a parameter.
 */
module MagicLink {
  import opened Common
  import opened Tables

  type Byte = x: int | 0 <= x < 256

  const TokenBytes: nat := 32
  /** `expiresAt.setHours(expiresAt.getHours() + 1)`, in seconds. */
  const LinkLifetime: int := 3600

  const UserNotFound: string := "Kullanıcı bulunamadı"
  const TokenRequired: string := "Token is required"
  const InvalidToken: string := "Geçersiz veya süresi dolmuş token"

  datatype IssueRequest = IssueRequest(email: string)

  predicate IsHexDigit(c: char) {
    '0' <= c <= '9' || 'a' <= c <= 'f'
  }

  /** The lower-case hexadecimal digit of a nibble. */
  function HexDigit(n: nat): (c: char)
    requires n < 16
    ensures IsHexDigit(c)
  {
    if n < 10 then ('0' as int + n) as char else ('a' as int + n - 10) as char
  }

  function HexValue(c: char): (r: Option<nat>)
    ensures r.Some? <==> IsHexDigit(c)
    ensures r.Some? ==> r.value < 16 && HexDigit(r.value) == c
  {
    if '0' <= c <= '9' then Some(c as int - '0' as int)
    else if 'a' <= c <= 'f' then Some(c as int - 'a' as int + 10)
    else None
  }

  /** `buffer.toString('hex')`: two lower-case digits per byte, high nibble first. */
  function HexEncode(bytes: seq<Byte>): (s: string)
    ensures |s| == 2 * |bytes|
    ensures forall i :: 0 <= i < |s| ==> IsHexDigit(s[i])
  {
    if bytes == [] then ""
    else [HexDigit(bytes[0] / 16), HexDigit(bytes[0] % 16)] + HexEncode(bytes[1..])
  }

  /** The inverse reading of a hexadecimal string; `None` on an odd length or a non-digit. */
  function HexDecode(s: string): Option<seq<Byte>>
    decreases |s|
  {
    if s == [] then Some([])
    else if |s| == 1 then None
    else match (HexValue(s[0]), HexValue(s[1]), HexDecode(s[2..]))
      case (Some(hi), Some(lo), Some(rest)) => Some([hi * 16 + lo] + rest)
      case _ => None
  }

  lemma {:induction false} DecodeEncode(bytes: seq<Byte>)
    ensures HexDecode(HexEncode(bytes)) == Some(bytes)
  {
    if bytes != [] {
      var s := HexEncode(bytes);
      assert s[2..] == HexEncode(bytes[1..]);
      DecodeEncode(bytes[1..]);
      assert HexValue(s[0]) == Some(bytes[0] / 16);
      assert HexValue(s[1]) == Some(bytes[0] % 16);
      assert [bytes[0]] + bytes[1..] == bytes;
    }
  }

  /** Distinct random bytes give distinct tokens: the encoding loses nothing. */
  lemma EncodeInjective(a: seq<Byte>, b: seq<Byte>)
    requires HexEncode(a) == HexEncode(b)
    ensures a == b
  {
    DecodeEncode(a);
    DecodeEncode(b);
  }

  /** `crypto.randomBytes(32).toString('hex')`. */
  function TokenOf(random: seq<Byte>): (token: string)
    requires |random| == TokenBytes
    ensures |token| == 64
    ensures forall i :: 0 <= i < |token| ==> IsHexDigit(token[i])
    ensures HexDecode(token) == Some(random)
  {
    DecodeEncode(random);
    HexEncode(random)
  }

  /**
   * The row GET selects: `.eq("token", token).eq("used", false).gte("expires_at", now).single()`.
   * A link is found only when it carries that token, is unused and has not expired.
   */
  function LiveLink(rows: seq<MagicLinkRow>, token: string, now: int): (r: Option<MagicLinkRow>)
    ensures r.Some? ==> r.value in rows && r.value.token == token && !r.value.used && r.value.expiresAt >= now
    ensures (forall l :: l in rows && l.token == token ==> l.used || l.expiresAt < now) ==> r.None?
  {
    Single(rows, (l: MagicLinkRow) => l.token == token && !l.used && l.expiresAt >= now)
  }

  /** `.update({ used: true }).eq("token", token)`. */
  function MarkUsed(rows: seq<MagicLinkRow>, token: string): (r: seq<MagicLinkRow>)
    ensures |r| == |rows|
    ensures forall i :: 0 <= i < |rows| ==> r[i] == if rows[i].token == token then rows[i].(used := true) else rows[i]
  {
    if rows == [] then []
    else [if rows[0].token == token then rows[0].(used := true) else rows[0]] + MarkUsed(rows[1..], token)
  }

  /** POST: issue a link for a registered email, valid for one hour and not yet used. */
  method IssueLink(db: Database, body: Option<IssueRequest>, random: seq<Byte>, now: int,
                   appUrl: string, forwardedFor: Option<string>)
    returns (resp: Response<string>)
    requires |random| == TokenBytes
    modifies db`magicLinks, db`auditLogs
    ensures body.None? ==> resp == Failure(500, InternalError)
    ensures body.Some? && UserByEmail(db.users, body.value.email).None? ==> resp == Failure(404, UserNotFound)
    ensures resp.Failure? ==> db.magicLinks == old(db.magicLinks) && db.auditLogs == old(db.auditLogs)
    ensures body.Some? && UserByEmail(db.users, body.value.email).Some? ==>
      var user := UserByEmail(db.users, body.value.email).value;
      var token := TokenOf(random);
      && resp == Success(appUrl + "/magic-login?token=" + token)
      && db.magicLinks == old(db.magicLinks) + [MagicLinkRow(user.id, token, false, now + LinkLifetime)]
      && db.auditLogs == old(db.auditLogs) + [AuditEntry(user.id, "magic_link_created", "magic_links", None,
                                                         Fields([("email", Some(user.email))]),
                                                         OrUnknown(forwardedFor), None, now)]
  {
    if body.None? {
      return Failure(500, InternalError);
    }
    var user := UserByEmail(db.users, body.value.email);
    if user.None? {
      return Failure(404, UserNotFound);
    }
    var token := TokenOf(random);
    var expiresAt := now + LinkLifetime;
    db.magicLinks := db.magicLinks + [MagicLinkRow(user.value.id, token, false, expiresAt)];
    var ipAddress := OrUnknown(forwardedFor);
    db.auditLogs := db.auditLogs + [AuditEntry(user.value.id, "magic_link_created", "magic_links", None,
                                               Fields([("email", Some(user.value.email))]), ipAddress, None, now)];
    resp := Success(appUrl + "/magic-login?token=" + token);
  }

  /** GET: redeem a live link once, recording one successful login attempt and an audit entry. */
  method RedeemLink(db: Database, token: Option<string>, now: int,
                    forwardedFor: Option<string>, userAgent: Option<string>)
    returns (resp: Response<Profile>)
    modifies db`magicLinks, db`loginAttempts, db`auditLogs
    ensures !Present(token) ==> resp == Failure(400, TokenRequired)
    ensures Present(token) && LiveLink(old(db.magicLinks), token.value, now).None? ==>
      resp == Failure(401, InvalidToken)
    ensures resp.Failure? && resp.status != 500 ==>
      db.magicLinks == old(db.magicLinks) && db.loginAttempts == old(db.loginAttempts) && db.auditLogs == old(db.auditLogs)
    ensures Present(token) && LiveLink(old(db.magicLinks), token.value, now).Some? ==>
      && db.magicLinks == MarkUsed(old(db.magicLinks), token.value)
      && var owner := UserById(db.users, LiveLink(old(db.magicLinks), token.value, now).value.userId);
         if owner.None? then
           && resp == Failure(500, InternalError)
           && db.loginAttempts == old(db.loginAttempts) && db.auditLogs == old(db.auditLogs)
         else
           var user := owner.value;
           var ipAddress := OrUnknown(forwardedFor);
           && resp == Success(ProfileOf(user))
           && db.loginAttempts == old(db.loginAttempts)
                + [LoginAttempt(user.email, ipAddress, user.id, true, OrUnknown(userAgent))]
           && db.auditLogs == old(db.auditLogs)
                + [AuditEntry(user.id, "magic_link_login", "users", None, NoDetails, ipAddress,
                              Some(OrUnknown(userAgent)), now)]
  {
    if !Present(token) {
      return Failure(400, TokenRequired);
    }
    var link := LiveLink(db.magicLinks, token.value, now);
    if link.None? {
      return Failure(401, InvalidToken);
    }
    db.magicLinks := MarkUsed(db.magicLinks, token.value);
    var owner := UserById(db.users, link.value.userId);
    if owner.None? {
      // the embedded `users` resource is null, so reading its email throws
      return Failure(500, InternalError);
    }
    var ipAddress := OrUnknown(forwardedFor);
    var agent := OrUnknown(userAgent);
    db.loginAttempts := db.loginAttempts + [LoginAttempt(owner.value.email, ipAddress, owner.value.id, true, agent)];
    db.auditLogs := db.auditLogs + [AuditEntry(owner.value.id, "magic_link_login", "users", None, NoDetails,
                                               ipAddress, Some(agent), now)];
    resp := Success(ProfileOf(owner.value));
  }

  /** A redeemed token is dead: at any later time a second GET with it answers 401. */
  lemma RedeemedLinkIsDead(rows: seq<MagicLinkRow>, token: string, later: int)
    ensures LiveLink(MarkUsed(rows, token), token, later).None?
  {
    var after := MarkUsed(rows, token);
    forall l | l in after && l.token == token ensures l.used {
      var i :| 0 <= i < |after| && after[i] == l;
    }
  }

  /**
   * A freshly issued link whose token no other row carries is redeemable exactly until its
   * expiry: from issue time up to one hour later, and not after.
   */
  lemma IssuedLinkIsLive(rows: seq<MagicLinkRow>, userId: string, token: string, issuedAt: int, at: int)
    requires forall l :: l in rows ==> l.token != token
    ensures var link := MagicLinkRow(userId, token, false, issuedAt + LinkLifetime);
      LiveLink(rows + [link], token, at) == if at <= issuedAt + LinkLifetime then Some(link) else None
  {
    var link := MagicLinkRow(userId, token, false, issuedAt + LinkLifetime);
    var p := (l: MagicLinkRow) => l.token == token && !l.used && l.expiresAt >= at;
    WhereAppend(rows, [link], p);
    assert Where([link], p) == (if p(link) then [link] else []) + Where([link][1..], p);
    assert [link][1..] == [];
  }
}
