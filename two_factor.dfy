/**
 * The second-factor route (src/app/api/2fa/route.js): POST enrols a user with a pending
 * (`is_enabled = false`) row, PUT confirms it with a TOTP code, PATCH spends a recovery code.
 *
 * The otplib secret is a parameter, `verifyToken` is a function-valued parameter (the TOTP
 * check is a foreign primitive), and the QR image is a parameter that is `None` when rendering
 * fails.
 */
module TwoFactor {
  import opened Common
  import opened Tables
  import RecoveryCodes

  datatype EnrollRequest = EnrollRequest(userId: string, email: string)
  datatype VerifyRequest = VerifyRequest(userId: string, token: string)
  datatype RedeemRequest = RedeemRequest(userId: string, recoveryCode: string)

  /** The POST body: the QR image and the codes that were stored. */
  datatype Enrolment = Enrolment(qrCode: string, recoveryCodes: seq<string>)

  const NotFound: string := "2FA bilgisi bulunamadı"
  const InvalidCode: string := "Geçersiz kod"
  const InvalidRecoveryCode: string := "Geçersiz kurtarma kodu"

  /** The rows `.eq("user_id", userId)` selects. */
  function RowsOf(rows: seq<TwoFactorRow>, userId: string): seq<TwoFactorRow> {
    Where(rows, (r: TwoFactorRow) => r.userId == userId)
  }

  /** `.eq("user_id", userId).single()`: the user's row when there is exactly one. */
  function RowOf(rows: seq<TwoFactorRow>, userId: string): (r: Option<TwoFactorRow>)
    ensures r.Some? <==> |RowsOf(rows, userId)| == 1
    ensures r.Some? ==> r.value in rows && r.value.userId == userId
    ensures r.Some? ==> forall row :: row in rows && row.userId == userId ==> row == r.value
    ensures forall i :: 0 <= i < |rows| && rows[i].userId == userId
                        && (forall j :: 0 <= j < |rows| && j != i ==> rows[j].userId != userId)
                        ==> r == Some(rows[i])
    ensures (forall row :: row in rows ==> row.userId != userId) ==> r.None?
  {
    var p := (row: TwoFactorRow) => row.userId == userId;
    forall i | 0 <= i < |rows| && p(rows[i]) && (forall j :: 0 <= j < |rows| && j != i ==> !p(rows[j])) {
      SingleOfUnique(rows, p, i);
    }
    Single(rows, p)
  }

  /** `.update({ is_enabled: true }).eq("user_id", userId)`. */
  function EnableFor(rows: seq<TwoFactorRow>, userId: string): seq<TwoFactorRow> {
    seq(|rows|, i requires 0 <= i < |rows| =>
      if rows[i].userId == userId then rows[i].(isEnabled := true) else rows[i])
  }

  /** `.update({ recovery_codes: codes }).eq("user_id", userId)`. */
  function SetCodesFor(rows: seq<TwoFactorRow>, userId: string, codes: seq<string>): (r: seq<TwoFactorRow>)
    ensures |r| == |rows|
    ensures forall i :: 0 <= i < |rows| ==>
      r[i] == if rows[i].userId == userId then rows[i].(recoveryCodes := codes) else rows[i]
  {
    if rows == [] then []
    else [if rows[0].userId == userId then rows[0].(recoveryCodes := codes) else rows[0]]
         + SetCodesFor(rows[1..], userId, codes)
  }

  /** Enabling touches only the user's rows, and only their `is_enabled` flag. */
  lemma EnableOnlyThatUser(rows: seq<TwoFactorRow>, userId: string)
    ensures |EnableFor(rows, userId)| == |rows|
    ensures forall i :: 0 <= i < |rows| ==>
      && EnableFor(rows, userId)[i].isEnabled == (rows[i].isEnabled || rows[i].userId == userId)
      && EnableFor(rows, userId)[i].(isEnabled := rows[i].isEnabled) == rows[i]
  {
  }

  /** `recoveryCodesArray.indexOf(code)`: the first position holding `code`, or -1. */
  function IndexOf(s: seq<string>, x: string): (k: int)
    ensures -1 <= k < |s|
    ensures k == -1 <==> x !in s
    ensures k >= 0 ==> s[k] == x && x !in s[..k]
  {
    if s == [] then -1
    else if s[0] == x then 0
    else
      var k := IndexOf(s[1..], x);
      if k == -1 then -1
      else
        assert s[..k + 1] == [s[0]] + s[1..][..k];
        k + 1
  }

  /** `recoveryCodesArray.splice(k, 1)`. */
  function Splice(s: seq<string>, k: nat): seq<string>
    requires k < |s|
  {
    s[..k] + s[k + 1..]
  }

  /**
   * Spending a present code removes exactly its first occurrence: one fewer code, the others
   * kept in their order.
   */
  lemma SpliceRemovesOneOccurrence(s: seq<string>, x: string)
    requires x in s
    ensures var r := Splice(s, IndexOf(s, x));
      && |r| == |s| - 1
      && multiset(r) == multiset(s) - multiset{x}
      && IsSubsequence(r, s)
  {
    var k := IndexOf(s, x);
    SpliceMultiset(s, k);
    SliceIsSubsequence(s, k);
  }

  lemma SpliceMultiset(s: seq<string>, k: nat)
    requires k < |s|
    ensures multiset(Splice(s, k)) == multiset(s) - multiset{s[k]}
  {
    var a, b := s[..k], s[k + 1..];
    assert s == a + ([s[k]] + b);
    calc {
      multiset(s);
      multiset(a) + multiset([s[k]] + b);
      multiset(a) + (multiset{s[k]} + multiset(b));
      multiset(a + b) + multiset{s[k]};
    }
  }

  lemma {:induction false} SliceIsSubsequence(s: seq<string>, k: nat)
    requires k < |s|
    ensures IsSubsequence(s[..k] + s[k + 1..], s)
  {
    var r := s[..k] + s[k + 1..];
    if k == 0 {
      assert r == s[1..];
      SuffixIsSubsequence(s[1..]);
    } else {
      SliceIsSubsequence(s[1..], k - 1);
      assert r[0] == s[0];
      assert r[1..] == s[1..][..k - 1] + s[1..][k..];
    }
  }

  lemma {:induction false} SuffixIsSubsequence(s: seq<string>)
    ensures IsSubsequence(s, s)
  {
    if s != [] {
      SuffixIsSubsequence(s[1..]);
    }
  }

  /** Filtering by user commutes with rewriting that user's codes. */
  lemma {:induction false} RowsOfSetCodes(rows: seq<TwoFactorRow>, userId: string, codes: seq<string>)
    ensures RowsOf(SetCodesFor(rows, userId, codes), userId) == SetCodesFor(RowsOf(rows, userId), userId, codes)
  {
    if rows != [] {
      var tail := RowsOf(rows[1..], userId);
      RowsOfSetCodes(rows[1..], userId, codes);
      if rows[0].userId == userId {
        assert RowsOf(rows, userId) == [rows[0]] + tail;
      }
    }
  }

  /** After rewriting the codes of a user's single row, that user still has a single row. */
  lemma RowOfSetCodes(rows: seq<TwoFactorRow>, userId: string, codes: seq<string>)
    requires RowOf(rows, userId).Some?
    ensures RowOf(SetCodesFor(rows, userId, codes), userId)
         == Some(RowOf(rows, userId).value.(recoveryCodes := codes))
  {
    RowsOfSetCodes(rows, userId, codes);
  }

  /** POST: enrol the user with a pending row holding the secret and ten fresh recovery codes. */
  method Enroll(db: Database, env: Env, body: Option<EnrollRequest>, secret: string,
                random: nat -> real, qrCode: Option<string>, insertError: Option<string>)
    returns (resp: Response<Enrolment>)
    requires RecoveryCodes.IsRandomSource(random)
    modifies db`twoFactor
    ensures !Configured(env) ==> resp == Failure(503, ConfigMissing)
    ensures Configured(env) && (body.None? || qrCode.None?) ==> resp == Failure(500, InternalError)
    ensures Configured(env) && body.Some? && qrCode.Some? && insertError.Some? ==>
      resp == Failure(500, insertError.value)
    ensures resp.Failure? ==> db.twoFactor == old(db.twoFactor)
    ensures Configured(env) && body.Some? && qrCode.Some? && insertError.None? ==>
      && resp.Success?
      && resp.value.qrCode == qrCode.value
      && |resp.value.recoveryCodes| == RecoveryCodes.DefaultCount
      && (forall c :: c in resp.value.recoveryCodes ==> RecoveryCodes.WellFormed(c))
      && db.twoFactor == old(db.twoFactor) + [TwoFactorRow(body.value.userId, secret, false, resp.value.recoveryCodes)]
  {
    if !Configured(env) {
      return Failure(503, ConfigMissing);
    }
    if body.None? {
      return Failure(500, InternalError);
    }
    var codes := RecoveryCodes.GenerateRecoveryCodes(None, random);
    if qrCode.None? {
      return Failure(500, InternalError);
    }
    if insertError.Some? {
      return Failure(500, insertError.value);
    }
    db.twoFactor := db.twoFactor + [TwoFactorRow(body.value.userId, secret, false, codes)];
    resp := Success(Enrolment(qrCode.value, codes));
  }

  /** PUT: confirm enrolment; `is_enabled` becomes true only after the verifier accepts the code. */
  method Verify(db: Database, body: Option<VerifyRequest>, verifyToken: (string, string) -> bool)
    returns (resp: Response<()>)
    modifies db`twoFactor
    ensures body.None? ==> resp == Failure(500, InternalError)
    ensures body.Some? && RowOf(old(db.twoFactor), body.value.userId).None? ==>
      resp == Failure(404, NotFound)
    ensures body.Some? && RowOf(old(db.twoFactor), body.value.userId).Some? ==>
      var row := RowOf(old(db.twoFactor), body.value.userId).value;
      if verifyToken(body.value.token, row.secret) then
        resp == Success(()) && db.twoFactor == EnableFor(old(db.twoFactor), body.value.userId)
      else
        resp == Failure(401, InvalidCode)
    ensures resp.Failure? ==> db.twoFactor == old(db.twoFactor)
  {
    if body.None? {
      return Failure(500, InternalError);
    }
    var row := RowOf(db.twoFactor, body.value.userId);
    if row.None? {
      return Failure(404, NotFound);
    }
    if !verifyToken(body.value.token, row.value.secret) {
      return Failure(401, InvalidCode);
    }
    db.twoFactor := EnableFor(db.twoFactor, body.value.userId);
    resp := Success(());
  }

  /** PATCH: spend a recovery code by removing its first occurrence from the stored list. */
  method RedeemRecoveryCode(db: Database, body: Option<RedeemRequest>) returns (resp: Response<()>)
    modifies db`twoFactor
    ensures body.None? ==> resp == Failure(500, InternalError)
    ensures body.Some? && RowOf(old(db.twoFactor), body.value.userId).None? ==>
      resp == Failure(404, NotFound)
    ensures body.Some? && RowOf(old(db.twoFactor), body.value.userId).Some? ==>
      var codes := RowOf(old(db.twoFactor), body.value.userId).value.recoveryCodes;
      if body.value.recoveryCode in codes then
        && resp == Success(())
        && db.twoFactor == SetCodesFor(old(db.twoFactor), body.value.userId,
                                       Splice(codes, IndexOf(codes, body.value.recoveryCode)))
      else
        resp == Failure(401, InvalidRecoveryCode)
    ensures resp.Failure? ==> db.twoFactor == old(db.twoFactor)
  {
    if body.None? {
      return Failure(500, InternalError);
    }
    var row := RowOf(db.twoFactor, body.value.userId);
    if row.None? {
      return Failure(404, NotFound);
    }
    var codes := row.value.recoveryCodes;
    var index := IndexOf(codes, body.value.recoveryCode);
    if index == -1 {
      return Failure(401, InvalidRecoveryCode);
    }
    codes := Splice(codes, index);
    db.twoFactor := SetCodesFor(db.twoFactor, body.value.userId, codes);
    resp := Success(());
  }

  /** The codes are pairwise distinct. */
  predicate Distinct(s: seq<string>) {
    forall i, j :: 0 <= i < j < |s| ==> s[i] != s[j]
  }

  /**
   * With distinct codes, a code that was just spent is gone: the user still has exactly one
   * row, and a second PATCH with the same code finds it absent and answers 401.
   */
  lemma SpentCodeIsGone(rows: seq<TwoFactorRow>, userId: string, code: string)
    requires RowOf(rows, userId).Some?
    requires Distinct(RowOf(rows, userId).value.recoveryCodes)
    requires code in RowOf(rows, userId).value.recoveryCodes
    ensures var codes := RowOf(rows, userId).value.recoveryCodes;
      var after := SetCodesFor(rows, userId, Splice(codes, IndexOf(codes, code)));
      && RowOf(after, userId).Some?
      && code !in RowOf(after, userId).value.recoveryCodes
  {
    var codes := RowOf(rows, userId).value.recoveryCodes;
    var k := IndexOf(codes, code);
    var rest := Splice(codes, k);
    RowOfSetCodes(rows, userId, rest);
  }
}
