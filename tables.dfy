/**
 * The hosted table store as an in-memory database: each table is a sequence of rows, and the
 * query-builder filters the handlers spell out (`.eq`, `.gte`, `.single()`, `.order`) are
 * functions over those sequences.
 */
module Tables {
  import opened Common

  datatype User = User(id: string, name: string, email: string, passwordHash: string)

  /** The public part of a user that handlers return: never the password hash. */
  datatype Profile = Profile(id: string, name: string, email: string)

  function ProfileOf(u: User): (p: Profile)
    ensures p.id == u.id && p.name == u.name && p.email == u.email
  {
    Profile(u.id, u.name, u.email)
  }

  /** A `user_2fa` row. */
  datatype TwoFactorRow = TwoFactorRow(userId: string, secret: string, isEnabled: bool,
                                       recoveryCodes: seq<string>)

  /** A `magic_links` row; `expiresAt` in seconds. */
  datatype MagicLinkRow = MagicLinkRow(userId: string, token: string, used: bool, expiresAt: int)

  /** A `login_attempts` row. */
  datatype LoginAttempt = LoginAttempt(email: string, ipAddress: string, userId: string,
                                       success: bool, userAgent: string)

  /** The JSON `details` of an audit entry: absent, or named fields some of which are undefined. */
  datatype Details = NoDetails | Fields(pairs: seq<(string, Option<string>)>)

  /** An `audit_logs` row; `createdAt` is the column default, the insertion time in seconds. */
  datatype AuditEntry = AuditEntry(userId: string, action: string, entity: string,
                                   entityId: Option<string>, details: Details,
                                   ipAddress: string, userAgent: Option<string>, createdAt: int)

  /** A `trusted_devices` row; `id` is the table's serial primary key. */
  datatype TrustedDevice = TrustedDevice(id: nat, userId: string, deviceId: string,
                                         deviceName: string, ipAddress: string,
                                         expiresAt: int, lastUsedAt: int)

  /** The store: one sequence per table, plus the serial counter of `trusted_devices.id`. */
  class Database {
    var users: seq<User>
    var twoFactor: seq<TwoFactorRow>
    var magicLinks: seq<MagicLinkRow>
    var loginAttempts: seq<LoginAttempt>
    var auditLogs: seq<AuditEntry>
    var trustedDevices: seq<TrustedDevice>
    var nextDeviceRowId: nat

    /** A store holding the given registered users and nothing else. */
    constructor (users: seq<User>)
      ensures this.users == users
      ensures twoFactor == [] && magicLinks == [] && loginAttempts == []
      ensures auditLogs == [] && trustedDevices == [] && nextDeviceRowId == 0
    {
      this.users := users;
      twoFactor, magicLinks, loginAttempts := [], [], [];
      auditLogs, trustedDevices := [], [];
      nextDeviceRowId := 0;
    }
  }

  /** `r` is `s` with some elements dropped and the rest in their original order. */
  predicate IsSubsequence<T(==)>(r: seq<T>, s: seq<T>)
    decreases |s|
  {
    r == [] || (s != [] && ((r[0] == s[0] && IsSubsequence(r[1..], s[1..])) || IsSubsequence(r, s[1..])))
  }

  /** The rows a chain of filters selects, in table order. */
  function Where<T(==,!new)>(rows: seq<T>, p: T -> bool): (r: seq<T>)
    ensures |r| <= |rows|
    ensures forall x :: x in r <==> x in rows && p(x)
    ensures IsSubsequence(r, rows)
    ensures (forall x :: x in rows ==> p(x)) ==> r == rows
    ensures (forall x :: x in rows ==> !p(x)) ==> r == []
  {
    if rows == [] then []
    else
      var rest := Where(rows[1..], p);
      if p(rows[0]) then
        assert ([rows[0]] + rest)[1..] == rest;
        [rows[0]] + rest
      else rest
  }

  /** The filters keep every copy of a passing row and no copy of any other row. */
  lemma {:induction false} WhereCounts<T(!new)>(rows: seq<T>, p: T -> bool)
    ensures forall x :: multiset(Where(rows, p))[x] == if p(x) then multiset(rows)[x] else 0
  {
    if rows != [] {
      WhereCounts(rows[1..], p);
      assert rows == [rows[0]] + rows[1..];
      assert multiset(rows) == multiset{rows[0]} + multiset(rows[1..]);
      if p(rows[0]) {
        assert Where(rows, p) == [rows[0]] + Where(rows[1..], p);
        assert multiset(Where(rows, p)) == multiset{rows[0]} + multiset(Where(rows[1..], p));
      }
    }
  }

  /** `.single()`: the one matching row, or nothing when no row or several rows match. */
  function Single<T(==,!new)>(rows: seq<T>, p: T -> bool): (r: Option<T>)
    ensures r.Some? <==> |Where(rows, p)| == 1
    ensures r.Some? ==> r.value in rows && p(r.value)
    ensures r.Some? ==> forall x :: x in rows && p(x) ==> x == r.value
    ensures (forall x :: x in rows ==> !p(x)) ==> r.None?
  {
    var m := Where(rows, p);
    if |m| == 1 then
      assert m[0] in m;
      Some(m[0])
    else None
  }

  /** Filtering a table that grew by some rows filters the old rows and the new ones apart. */
  lemma {:induction false} WhereAppend<T(!new)>(rows: seq<T>, extra: seq<T>, p: T -> bool)
    ensures Where(rows + extra, p) == Where(rows, p) + Where(extra, p)
  {
    if rows == [] {
      assert rows + extra == extra;
    } else {
      assert (rows + extra)[0] == rows[0];
      assert (rows + extra)[1..] == rows[1..] + extra;
      WhereAppend(rows[1..], extra, p);
      if p(rows[0]) {
        assert [rows[0]] + (Where(rows[1..], p) + Where(extra, p))
            == ([rows[0]] + Where(rows[1..], p)) + Where(extra, p);
      }
    }
  }

  /** Filters that agree on every row select the same rows. */
  lemma {:induction false} WhereCongruent<T(!new)>(rows: seq<T>, p: T -> bool, q: T -> bool)
    requires forall x :: x in rows ==> p(x) == q(x)
    ensures Where(rows, p) == Where(rows, q)
  {
    if rows != [] {
      assert forall x :: x in rows[1..] ==> x in rows;
      WhereCongruent(rows[1..], p, q);
    }
  }

  /** When exactly one row passes the filters, the filters select just that row. */
  lemma {:induction false} WhereSingleton<T(!new)>(rows: seq<T>, p: T -> bool, i: nat)
    requires i < |rows| && p(rows[i])
    requires forall j :: 0 <= j < |rows| && j != i ==> !p(rows[j])
    ensures Where(rows, p) == [rows[i]]
  {
    var tail := rows[1..];
    assert forall j :: 0 <= j < |tail| ==> tail[j] == rows[j + 1];
    if i == 0 {
      assert forall x :: x in tail ==> !p(x) by {
        forall x | x in tail ensures !p(x) {
          var k :| 0 <= k < |tail| && tail[k] == x;
        }
      }
    } else {
      WhereSingleton(tail, p, i - 1);
    }
  }

  /** When two rows pass the filters, the filters select at least two rows. */
  lemma {:induction false} WhereTwo<T(!new)>(rows: seq<T>, p: T -> bool, i: nat, j: nat)
    requires i < j < |rows| && p(rows[i]) && p(rows[j])
    ensures |Where(rows, p)| >= 2
  {
    if i == 0 {
      assert rows[j] in rows[1..];
    } else {
      WhereTwo(rows[1..], p, i - 1, j - 1);
    }
  }

  /** `.single()` over filters exactly one row passes yields that row. */
  lemma SingleOfUnique<T(!new)>(rows: seq<T>, p: T -> bool, i: nat)
    requires i < |rows| && p(rows[i])
    requires forall j :: 0 <= j < |rows| && j != i ==> !p(rows[j])
    ensures Single(rows, p) == Some(rows[i])
  {
    WhereSingleton(rows, p, i);
  }

  /** `.from("users").select(...).eq("email", email).single()`. */
  function UserByEmail(users: seq<User>, email: string): (r: Option<User>)
    ensures r.Some? ==> r.value in users && r.value.email == email
    ensures r.Some? ==> forall u :: u in users && u.email == email ==> u == r.value
    ensures forall i :: 0 <= i < |users| && users[i].email == email
                        && (forall j :: 0 <= j < |users| && j != i ==> users[j].email != email)
                        ==> r == Some(users[i])
    ensures (forall u :: u in users ==> u.email != email) ==> r.None?
  {
    var p := (u: User) => u.email == email;
    forall i | 0 <= i < |users| && p(users[i]) && (forall j :: 0 <= j < |users| && j != i ==> !p(users[j])) {
      SingleOfUnique(users, p, i);
    }
    Single(users, p)
  }

  /** The user a foreign key `user_id` refers to, as an embedded `users(...)` resource. */
  function UserById(users: seq<User>, id: string): (r: Option<User>)
    ensures r.Some? ==> r.value in users && r.value.id == id
    ensures r.Some? ==> forall u :: u in users && u.id == id ==> u == r.value
    ensures forall i :: 0 <= i < |users| && users[i].id == id
                        && (forall j :: 0 <= j < |users| && j != i ==> users[j].id != id)
                        ==> r == Some(users[i])
    ensures (forall u :: u in users ==> u.id != id) ==> r.None?
  {
    var p := (u: User) => u.id == id;
    forall i | 0 <= i < |users| && p(users[i]) && (forall j :: 0 <= j < |users| && j != i ==> !p(users[j])) {
      SingleOfUnique(users, p, i);
    }
    Single(users, p)
  }

  /** Ordered by `key`, largest first (`.order(column, { ascending: false })`). */
  predicate SortedDesc<T>(s: seq<T>, key: T -> int) {
    forall i, j :: 0 <= i < j < |s| ==> key(s[i]) >= key(s[j])
  }

  /** In a list sorted largest first, no later element has a larger key than the head. */
  lemma HeadBoundsTail<T>(s: seq<T>, key: T -> int)
    requires s != [] && SortedDesc(s, key)
    ensures forall y :: y in s[1..] ==> key(y) <= key(s[0])
  {
    forall y | y in s[1..] ensures key(y) <= key(s[0]) {
      var k :| 0 <= k < |s| - 1 && s[1..][k] == y;
      assert s[k + 1] == y;
    }
  }

  /** A head no smaller than anything in a sorted list keeps it sorted. */
  lemma ConsSorted<T>(h: T, rest: seq<T>, key: T -> int)
    requires SortedDesc(rest, key) && forall y :: y in rest ==> key(y) <= key(h)
    ensures SortedDesc([h] + rest, key)
  {
    var r := [h] + rest;
    forall i, j | 0 <= i < j < |r| ensures key(r[i]) >= key(r[j]) {
      assert r[j] == rest[j - 1];
      if i == 0 {
        assert rest[j - 1] in rest;
      } else {
        assert r[i] == rest[i - 1];
      }
    }
  }

  function InsertDesc<T>(x: T, s: seq<T>, key: T -> int): (r: seq<T>)
    requires SortedDesc(s, key)
    ensures SortedDesc(r, key)
    ensures multiset(r) == multiset(s) + multiset{x}
  {
    if s == [] then [x]
    else if key(x) >= key(s[0]) then
      HeadBoundsTail(s, key);
      ConsSorted(x, s, key);
      [x] + s
    else
      var rest := InsertDesc(x, s[1..], key);
      assert s == [s[0]] + s[1..];
      HeadBoundsTail(s, key);
      assert forall y :: y in rest ==> key(y) <= key(s[0]) by {
        forall y | y in rest ensures key(y) <= key(s[0]) {
          assert y in multiset(rest);
          if y != x {
            assert y in multiset(s[1..]);
          }
        }
      }
      ConsSorted(s[0], rest, key);
      [s[0]] + rest
  }

  /** Sorting keeps the number of rows. */
  lemma SortDescLength<T>(s: seq<T>, key: T -> int)
    ensures |SortDesc(s, key)| == |s|
  {
    var r := SortDesc(s, key);
    assert |r| == |multiset(r)| == |multiset(s)| == |s|;
  }

  /** The rows of `s` rearranged newest (largest key) first. */
  function SortDesc<T>(s: seq<T>, key: T -> int): (r: seq<T>)
    ensures SortedDesc(r, key)
    ensures multiset(r) == multiset(s)
  {
    if s == [] then []
    else
      assert s == [s[0]] + s[1..];
      InsertDesc(s[0], SortDesc(s[1..], key), key)
  }
}
