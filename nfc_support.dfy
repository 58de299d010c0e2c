/**
 * Web NFC compatibility checks and the Apple test mode (src/lib/nfcSupport.js).
 *
 * The browser globals are input records: `navigator` is a `Navigator`, `window` a `Browser`.
 * The regular expressions are hand-written scanners that find the leftmost match, as the
 * JavaScript engine does.
 */
module NfcSupport {
  import opened Common

  datatype Navigator = Navigator(userAgent: string, platform: string, maxTouchPoints: int)

  /** The parts of `window` that are read: `isSecureContext` and whether `"NDEFReader" in window`. */
  datatype Browser = Browser(isSecureContext: bool, hasNdefReader: bool)

  // ---------------------------------------------------------------- digits and numbers

  predicate IsDigit(c: char) {
    '0' <= c <= '9'
  }

  predicate AllDigits(s: string) {
    forall k :: 0 <= k < |s| ==> IsDigit(s[k])
  }

  /** The leading run of digits: what a greedy `\d+` takes, "" when the text starts otherwise. */
  function LeadingDigits(t: string): (d: string)
    ensures |d| <= |t| && d == t[..|d|] && AllDigits(d)
    ensures |d| == |t| || !IsDigit(t[|d|])
  {
    if t != [] && IsDigit(t[0]) then [t[0]] + LeadingDigits(t[1..]) else []
  }

  /** Digits followed by the end or by a non-digit are taken whole. */
  lemma {:induction false} LeadingDigitsOf(d: string, r: string)
    requires AllDigits(d) && (r == [] || !IsDigit(r[0]))
    ensures LeadingDigits(d + r) == d
  {
    if d != [] {
      assert (d + r)[0] == d[0];
      assert (d + r)[1..] == d[1..] + r;
      LeadingDigitsOf(d[1..], r);
    } else {
      assert d + r == r;
    }
  }

  /** `parseInt` of a string of decimal digits. */
  function DigitsValue(s: string): nat
    requires AllDigits(s)
  {
    if s == [] then 0 else 10 * DigitsValue(s[..|s| - 1]) + (s[|s| - 1] as int - '0' as int)
  }

  /** The decimal text of a number, as a template literal renders it. */
  function Decimal(n: nat): (s: string)
    ensures |s| > 0 && AllDigits(s)
  {
    if n < 10 then [('0' as int + n) as char] else Decimal(n / 10) + [('0' as int + n % 10) as char]
  }

  /** Reading back a rendered number gives the number. */
  lemma {:induction false} DecimalRoundTrip(n: nat)
    ensures DigitsValue(Decimal(n)) == n
  {
    if n >= 10 {
      var s := Decimal(n);
      assert s[..|s| - 1] == Decimal(n / 10);
      DecimalRoundTrip(n / 10);
    }
  }

  /** What follows position `i` is `u`. */
  lemma SuffixStartsWith(s: string, i: nat, u: string, v: string)
    requires i <= |s| && s[i..] == u + v
    ensures StartsAt(s, i, u) && s[i + |u|..] == v
  {
    assert s[i..i + |u|] == s[i..][..|u|];
    assert s[i + |u|..] == s[i..][|u|..];
  }

  /** Text that does not continue a digit run. */
  predicate NoDigitNext(r: string) {
    r == [] || !IsDigit(r[0])
  }

  /** Digits followed by the end or by a non-digit: the run is taken whole and the rest follows. */
  lemma SplitDigits(d: string, r: string)
    requires AllDigits(d) && NoDigitNext(r)
    ensures LeadingDigits(d + r) == d && (d + r)[|d|..] == r
  {
    LeadingDigitsOf(d, r);
  }

  // ---------------------------------------------------------------- operating-system versions

  /** The three capture groups of `(\d+)<sep>(\d+)<sep>?(\d+)?`; `patch` is "" when group 3 is undefined. */
  datatype Version = Version(major: string, minor: string, patch: string)

  /** The groups a match can capture: two non-empty digit runs and a possibly empty third. */
  predicate Captured(v: Version) {
    |v.major| > 0 && AllDigits(v.major) && |v.minor| > 0 && AllDigits(v.minor) && AllDigits(v.patch)
  }

  /** `${m[1]}.${m[2]}${m[3] ? `.${m[3]}` : ''}`, or '' when there is no match. */
  function VersionText(v: Option<Version>): string {
    match v
    case None => ""
    case Some(v) => v.major + "." + v.minor + (if v.patch != "" then "." + v.patch else "")
  }

  /** `<sep>?(\d+)?`: the optional third group, "" when absent. */
  function Patch(w: string, sep: char): (p: string)
    ensures AllDigits(p)
  {
    LeadingDigits(if w != [] && w[0] == sep then w[1..] else w)
  }

  /** `<sep>(\d+)<sep>?(\d+)?` after the major group. */
  function AfterMajor(major: string, u: string, sep: char): (r: Option<Version>)
    ensures r.Some? ==> r.value.major == major && |r.value.minor| > 0 && AllDigits(r.value.minor)
                        && AllDigits(r.value.patch)
  {
    if u == [] || u[0] != sep then None
    else
      var minor := LeadingDigits(u[1..]);
      if minor == [] then None else Some(Version(major, minor, Patch(u[1..][|minor|..], sep)))
  }

  /** `(\d+)<sep>(\d+)<sep>?(\d+)?` at the start of `t`. */
  function Groups(t: string, sep: char): (r: Option<Version>)
    ensures r.Some? ==> Captured(r.value)
  {
    var major := LeadingDigits(t);
    if major == [] then None else AfterMajor(major, t[|major|..], sep)
  }

  /** The pieces of "a<sep>b..." are read one group at a time. */
  lemma GroupsOf(sep: char, a: string, b: string, w: string)
    requires !IsDigit(sep) && NoDigitNext(w)
    requires |a| > 0 && AllDigits(a) && |b| > 0 && AllDigits(b)
    ensures Groups(a + ([sep] + (b + w)), sep) == Some(Version(a, b, Patch(w, sep)))
  {
    SplitDigits(a, [sep] + (b + w));
    SplitDigits(b, w);
    assert ([sep] + (b + w))[1..] == b + w;
  }

  /** "a<sep>b<sep>c" not followed by a digit is read as three groups. */
  lemma GroupsThree(sep: char, a: string, b: string, c: string, r: string)
    requires !IsDigit(sep) && NoDigitNext(r)
    requires |a| > 0 && AllDigits(a) && |b| > 0 && AllDigits(b) && |c| > 0 && AllDigits(c)
    ensures Groups(a + ([sep] + (b + ([sep] + (c + r)))), sep) == Some(Version(a, b, c))
  {
    GroupsOf(sep, a, b, [sep] + (c + r));
    assert ([sep] + (c + r))[1..] == c + r;
    LeadingDigitsOf(c, r);
  }

  /** "a<sep>b" followed by neither a digit nor the separator is read as two groups. */
  lemma GroupsTwo(sep: char, a: string, b: string, r: string)
    requires !IsDigit(sep) && NoDigitNext(r) && (r == [] || r[0] != sep)
    requires |a| > 0 && AllDigits(a) && |b| > 0 && AllDigits(b)
    ensures Groups(a + ([sep] + (b + r)), sep) == Some(Version(a, b, ""))
  {
    GroupsOf(sep, a, b, r);
  }

  /** `<marker>(\d+)<sep>(\d+)<sep>?(\d+)?` tried at position `i`. */
  function VersionAt(s: string, i: nat, marker: string, sep: char): Option<Version> {
    if StartsAt(s, i, marker) then Groups(s[i + |marker|..], sep) else None
  }

  /** A marker followed by text the groups read is a match at that position. */
  lemma VersionAtReads(ua: string, i: nat, marker: string, sep: char, t: string, v: Version)
    requires i <= |ua| && ua[i..] == marker + t && Groups(t, sep) == Some(v)
    ensures VersionAt(ua, i, marker, sep) == Some(v)
  {
    SuffixStartsWith(ua, i, marker, t);
  }

  /** The leftmost match at or after position `i`, as `String.prototype.match` finds it. */
  function FirstVersion(ua: string, i: nat, marker: string, sep: char): (r: Option<Version>)
    ensures r.Some? ==> Captured(r.value)
    decreases |ua| + 1 - i
  {
    if i > |ua| then None
    else if VersionAt(ua, i, marker, sep).Some? then VersionAt(ua, i, marker, sep)
    else FirstVersion(ua, i + 1, marker, sep)
  }

  /** A match at `j` with no marker between `i` and `j` is the leftmost one. */
  lemma {:induction false} FirstVersionAt(ua: string, i: nat, j: nat, marker: string, sep: char)
    requires i <= j <= |ua| && VersionAt(ua, j, marker, sep).Some?
    requires forall k :: i <= k < j ==> !StartsAt(ua, k, marker)
    ensures FirstVersion(ua, i, marker, sep) == VersionAt(ua, j, marker, sep)
    decreases j - i
  {
    if i < j {
      FirstVersionAt(ua, i + 1, j, marker, sep);
    }
  }

  /** Without the marker there is no match. */
  lemma {:induction false} FirstVersionNone(ua: string, i: nat, marker: string, sep: char)
    requires forall k :: i <= k <= |ua| ==> !StartsAt(ua, k, marker)
    ensures FirstVersion(ua, i, marker, sep).None?
    decreases |ua| + 1 - i
  {
    if i <= |ua| {
      FirstVersionNone(ua, i + 1, marker, sep);
    }
  }

  /** `ua.match(/OS (\d+)_(\d+)_?(\d+)?/)`. */
  function IosVersion(ua: string): Option<Version> {
    FirstVersion(ua, 0, "OS ", '_')
  }

  /** `ua.match(/Android (\d+)\.(\d+)\.?(\d+)?/)`. */
  function AndroidVersion(ua: string): Option<Version> {
    FirstVersion(ua, 0, "Android ", '.')
  }

  /** When the first "OS " of the user agent starts "OS a_b_c", the iOS version is "a.b.c". */
  lemma IosVersionReads(ua: string, i: nat, a: string, b: string, c: string, r: string)
    requires |a| > 0 && AllDigits(a) && |b| > 0 && AllDigits(b) && |c| > 0 && AllDigits(c) && NoDigitNext(r)
    requires i <= |ua| && ua[i..] == "OS " + (a + ("_" + (b + ("_" + (c + r)))))
    requires forall k :: 0 <= k < i ==> !StartsAt(ua, k, "OS ")
    ensures IosVersion(ua) == Some(Version(a, b, c))
    ensures VersionText(IosVersion(ua)) == a + "." + b + "." + c
  {
    GroupsThree('_', a, b, c, r);
    VersionAtReads(ua, i, "OS ", '_', a + ("_" + (b + ("_" + (c + r)))), Version(a, b, c));
    FirstVersionAt(ua, 0, i, "OS ", '_');
  }

  /** When the first "Android " starts "Android a.b", followed by neither a digit nor a dot, the version is "a.b". */
  lemma AndroidVersionReads(ua: string, i: nat, a: string, b: string, r: string)
    requires |a| > 0 && AllDigits(a) && |b| > 0 && AllDigits(b) && NoDigitNext(r) && (r == [] || r[0] != '.')
    requires i <= |ua| && ua[i..] == "Android " + (a + ("." + (b + r)))
    requires forall k :: 0 <= k < i ==> !StartsAt(ua, k, "Android ")
    ensures AndroidVersion(ua) == Some(Version(a, b, ""))
    ensures VersionText(AndroidVersion(ua)) == a + "." + b
  {
    GroupsTwo('.', a, b, r);
    VersionAtReads(ua, i, "Android ", '.', a + ("." + (b + r)), Version(a, b, ""));
    FirstVersionAt(ua, 0, i, "Android ", '.');
    assert a + "." + b + "" == a + "." + b;
  }

  // ---------------------------------------------------------------- browser versions

  /** The two patterns that read a browser's major version. */
  datatype NumberPattern =
    | ChromeNumber   // `Chrome\/([0-9]+)`
    | SafariNumber   // `Version\/([0-9]+).*Safari`

  function Marker(p: NumberPattern): string {
    match p
    case ChromeNumber => "Chrome/"
    case SafariNumber => "Version/"
  }

  /** The characters `.` does not match. */
  predicate IsLineTerminator(c: char) {
    c == '\n' || c == '\r' || c == '\U{2028}' || c == '\U{2029}'
  }

  /** The text up to the first line terminator: what `.*` can cross. */
  function LineRest(s: string): (r: string)
    ensures |r| <= |s| && r == s[..|r|]
    ensures forall k :: 0 <= k < |r| ==> !IsLineTerminator(r[k])
    ensures |r| == |s| || IsLineTerminator(s[|r|])
  {
    if s == [] || IsLineTerminator(s[0]) then [] else [s[0]] + LineRest(s[1..])
  }

  /**
   * The pattern tried at position `i`: the marker, digits, and for Safari the word "Safari"
   * later on the same line.
   */
  function NumberAt(s: string, i: nat, p: NumberPattern): Option<nat> {
    if !StartsAt(s, i, Marker(p)) then None
    else
      var t := s[i + |Marker(p)|..];
      var d := LeadingDigits(t);
      if d == [] then None
      else if p == SafariNumber && !Contains(LineRest(t[|d|..]), "Safari") then None
      else Some(DigitsValue(d))
  }

  /** The leftmost match at or after position `i`. */
  function FirstNumber(ua: string, i: nat, p: NumberPattern): Option<nat>
    decreases |ua| + 1 - i
  {
    if i > |ua| then None
    else if NumberAt(ua, i, p).Some? then NumberAt(ua, i, p)
    else FirstNumber(ua, i + 1, p)
  }

  /** A match at `j` with no marker between `i` and `j` is the leftmost one. */
  lemma {:induction false} FirstNumberAt(ua: string, i: nat, j: nat, p: NumberPattern)
    requires i <= j <= |ua| && NumberAt(ua, j, p).Some?
    requires forall k :: i <= k < j ==> !StartsAt(ua, k, Marker(p))
    ensures FirstNumber(ua, i, p) == NumberAt(ua, j, p)
    decreases j - i
  {
    if i < j {
      FirstNumberAt(ua, i + 1, j, p);
    }
  }

  /** Without the marker there is no match. */
  lemma {:induction false} FirstNumberNone(ua: string, i: nat, p: NumberPattern)
    requires forall k :: i <= k <= |ua| ==> !StartsAt(ua, k, Marker(p))
    ensures FirstNumber(ua, i, p).None?
    decreases |ua| + 1 - i
  {
    if i <= |ua| {
      FirstNumberNone(ua, i + 1, p);
    }
  }

  /** `chromeMatch ? parseInt(chromeMatch[1]) : 0`. */
  function ChromeVersion(ua: string): nat {
    match FirstNumber(ua, 0, ChromeNumber)
    case None => 0
    case Some(v) => v
  }

  /** `safariMatch ? parseInt(safariMatch[1]) : 0`. */
  function SafariVersion(ua: string): nat {
    match FirstNumber(ua, 0, SafariNumber)
    case None => 0
    case Some(v) => v
  }

  /** When the first "Chrome/" is followed by a rendered number, the Chrome version is that number. */
  lemma ChromeVersionReads(ua: string, i: nat, n: nat, r: string)
    requires NoDigitNext(r)
    requires i <= |ua| && ua[i..] == "Chrome/" + (Decimal(n) + r)
    requires forall k :: 0 <= k < i ==> !StartsAt(ua, k, "Chrome/")
    ensures ChromeVersion(ua) == n
  {
    SuffixStartsWith(ua, i, "Chrome/", Decimal(n) + r);
    SplitDigits(Decimal(n), r);
    DecimalRoundTrip(n);
    FirstNumberAt(ua, 0, i, ChromeNumber);
  }

  /** A user agent without "Chrome/" has Chrome version 0. */
  lemma NoChromeMarker(ua: string)
    requires forall k :: 0 <= k <= |ua| ==> !StartsAt(ua, k, "Chrome/")
    ensures ChromeVersion(ua) == 0
  {
    FirstNumberNone(ua, 0, ChromeNumber);
  }

  /** "Version/n" followed by "Safari" on the same line gives Safari version n. */
  lemma SafariVersionReads(ua: string, i: nat, n: nat, r: string)
    requires NoDigitNext(r) && Contains(LineRest(r), "Safari")
    requires i <= |ua| && ua[i..] == "Version/" + (Decimal(n) + r)
    requires forall k :: 0 <= k < i ==> !StartsAt(ua, k, "Version/")
    ensures SafariVersion(ua) == n
  {
    SuffixStartsWith(ua, i, "Version/", Decimal(n) + r);
    SplitDigits(Decimal(n), r);
    DecimalRoundTrip(n);
    FirstNumberAt(ua, 0, i, SafariNumber);
  }

  // ---------------------------------------------------------------- device detection

  datatype Device = Device(isIOS: bool, isIPad: bool, isIPhone: bool, isMacOS: bool, isAndroid: bool,
                           isWindows: bool, isMobile: bool, osVersion: string)

  /** An iPad in desktop mode reports the platform `MacIntel` with a touch screen. */
  predicate TouchMac(nav: Navigator) {
    nav.platform == "MacIntel" && nav.maxTouchPoints > 1
  }

  /** `detectDevice()`: the platform flags, then the version of iOS or, failing that, of Android. */
  function DetectDevice(nav: Navigator): (d: Device)
    ensures d.isIOS <==> Contains(nav.userAgent, "iPhone") || Contains(nav.userAgent, "iPad")
                         || Contains(nav.userAgent, "iPod") || TouchMac(nav)
    ensures d.isIPad <==> Contains(nav.userAgent, "iPad") || TouchMac(nav)
    ensures d.isIPhone <==> Contains(nav.userAgent, "iPhone")
    ensures d.isAndroid <==> Contains(nav.userAgent, "Android")
    ensures d.isWindows <==> Contains(nav.userAgent, "Windows")
    ensures d.isMobile <==> Contains(nav.userAgent, "Mobi") || d.isAndroid || d.isIOS
    ensures d.isMacOS <==> (Contains(nav.userAgent, "Macintosh") || Contains(nav.userAgent, "MacIntel")
                            || Contains(nav.userAgent, "MacPPC") || Contains(nav.userAgent, "Mac68K"))
                           && nav.maxTouchPoints <= 1
    ensures d.isIPhone ==> d.isIOS
    ensures d.isIPad ==> d.isIOS
    ensures d.isIOS || d.isAndroid ==> d.isMobile
    ensures d.isIOS ==> d.osVersion == VersionText(IosVersion(nav.userAgent))
    ensures !d.isIOS && d.isAndroid ==> d.osVersion == VersionText(AndroidVersion(nav.userAgent))
    ensures !d.isIOS && !d.isAndroid ==> d.osVersion == ""
  {
    var ua := nav.userAgent;
    var isIOS := Contains(ua, "iPhone") || Contains(ua, "iPad") || Contains(ua, "iPod") || TouchMac(nav);
    var isAndroid := Contains(ua, "Android");
    Device(
      isIOS := isIOS,
      isIPad := Contains(ua, "iPad") || TouchMac(nav),
      isIPhone := Contains(ua, "iPhone"),
      isMacOS := (Contains(ua, "Macintosh") || Contains(ua, "MacIntel") || Contains(ua, "MacPPC")
                  || Contains(ua, "Mac68K")) && nav.maxTouchPoints <= 1,
      isAndroid := isAndroid,
      isWindows := Contains(ua, "Windows"),
      isMobile := Contains(ua, "Mobi") || isAndroid
                  || (Contains(ua, "iPad") || Contains(ua, "iPhone") || Contains(ua, "iPod") || TouchMac(nav)),
      osVersion := if isIOS then VersionText(IosVersion(ua))
                   else if isAndroid then VersionText(AndroidVersion(ua))
                   else "")
  }

  /** An iPhone whose agent reads "OS a_b_c" (the first "OS ") reports iOS version "a.b.c". */
  lemma IPhoneVersion(nav: Navigator, i: nat, a: string, b: string, c: string, r: string)
    requires Contains(nav.userAgent, "iPhone")
    requires |a| > 0 && AllDigits(a) && |b| > 0 && AllDigits(b) && |c| > 0 && AllDigits(c) && NoDigitNext(r)
    requires i <= |nav.userAgent| && nav.userAgent[i..] == "OS " + (a + ("_" + (b + ("_" + (c + r)))))
    requires forall k :: 0 <= k < i ==> !StartsAt(nav.userAgent, k, "OS ")
    ensures DetectDevice(nav).isIOS && DetectDevice(nav).isIPhone && DetectDevice(nav).isMobile
    ensures DetectDevice(nav).osVersion == a + "." + b + "." + c
  {
    IosVersionReads(nav.userAgent, i, a, b, c, r);
  }

  /** An Android agent that is no Apple device, reading "Android a.b", reports version "a.b". */
  lemma AndroidDeviceVersion(nav: Navigator, i: nat, a: string, b: string, r: string)
    requires !Contains(nav.userAgent, "iPhone") && !Contains(nav.userAgent, "iPad")
    requires !Contains(nav.userAgent, "iPod") && !TouchMac(nav)
    requires |a| > 0 && AllDigits(a) && |b| > 0 && AllDigits(b) && NoDigitNext(r) && (r == [] || r[0] != '.')
    requires i <= |nav.userAgent| && nav.userAgent[i..] == "Android " + (a + ("." + (b + r)))
    requires forall k :: 0 <= k < i ==> !StartsAt(nav.userAgent, k, "Android ")
    ensures !DetectDevice(nav).isIOS && DetectDevice(nav).isAndroid && DetectDevice(nav).isMobile
    ensures DetectDevice(nav).osVersion == a + "." + b
  {
    var ua := nav.userAgent;
    AndroidVersionReads(ua, i, a, b, r);
    assert ua[i..i + 7] == ua[i..][..7] == "Android";
    assert StartsAt(ua, i, "Android");
  }

  /** The detected OS version is "" or "major.minor" with an optional ".patch", each part made of digits. */
  lemma OsVersionShape(nav: Navigator)
    ensures var t := DetectDevice(nav).osVersion;
      t == "" || exists w: Version :: Captured(w) && t == VersionText(Some(w))
  {
    var d := DetectDevice(nav);
    var v := if d.isIOS then IosVersion(nav.userAgent)
             else if d.isAndroid then AndroidVersion(nav.userAgent) else None;
    assert d.osVersion == VersionText(v);
    if v.Some? {
      assert Captured(v.value) && d.osVersion == VersionText(Some(v.value));
    }
  }

  /** An iPad in desktop mode is an iPad running iOS, mobile, and not a Mac, whatever its user agent says. */
  lemma DesktopModeIPad(nav: Navigator)
    requires TouchMac(nav)
    ensures var d := DetectDevice(nav); d.isIOS && d.isIPad && d.isMobile && !d.isMacOS
  {
  }

  // ---------------------------------------------------------------- compatibility

  const MinChromeVersion: nat := 89

  /** Which check of the fixed chain decided the outcome. */
  datatype Diagnosis = Supported | NotChrome | ChromeTooOld(version: nat) | InsecureContext | NotAndroid | NoHardware

  /** The first failing check, in the order browser, Chrome version, secure context, Android. */
  function Diagnose(ua: string, chromeVersion: nat, win: Browser): (d: Diagnosis)
    ensures d == Supported <==> win.hasNdefReader
    ensures d == NotChrome <==> !win.hasNdefReader && !Contains(ua, "Chrome")
    ensures d.ChromeTooOld? <==> !win.hasNdefReader && Contains(ua, "Chrome") && chromeVersion < MinChromeVersion
    ensures d.ChromeTooOld? ==> d.version == chromeVersion
    ensures d == InsecureContext <==>
      !win.hasNdefReader && Contains(ua, "Chrome") && chromeVersion >= MinChromeVersion && !win.isSecureContext
    ensures d == NotAndroid <==>
      && !win.hasNdefReader && Contains(ua, "Chrome") && chromeVersion >= MinChromeVersion && win.isSecureContext
      && !Contains(ua, "Android")
    ensures d == NoHardware <==>
      && !win.hasNdefReader && Contains(ua, "Chrome") && chromeVersion >= MinChromeVersion && win.isSecureContext
      && Contains(ua, "Android")
  {
    if win.hasNdefReader then Supported
    else if !Contains(ua, "Chrome") then NotChrome
    else if chromeVersion < MinChromeVersion then ChromeTooOld(chromeVersion)
    else if !win.isSecureContext then InsecureContext
    else if !Contains(ua, "Android") then NotAndroid
    else NoHardware
  }

  function DetailsText(d: Diagnosis): string {
    match d
    case Supported => "Web NFC API destekleniyor."
    case NotChrome => "Web NFC API sadece Chrome tarayıcısında desteklenir."
    case ChromeTooOld(v) => "Chrome " + Decimal(v) + " Web NFC'yi desteklemiyor. Chrome 89+ gerekli."
    case InsecureContext => "Web NFC yalnızca HTTPS veya localhost üzerinde çalışır."
    case NotAndroid => "Web NFC şu anda yalnızca Android cihazlarda destekleniyor."
    case NoHardware => "Bu cihazda NFC donanımı bulunamadı veya etkin değil."
  }

  /** The advice for each outcome: none when supported, two for missing hardware, one otherwise. */
  function Requirements(d: Diagnosis): (r: seq<string>)
    ensures |r| == if d == Supported then 0 else if d == NoHardware then 2 else 1
  {
    match d
    case Supported => []
    case NotChrome => ["Chrome tarayıcısı kullanın"]
    case ChromeTooOld(_) => ["Chrome 89 veya üstü bir sürüm kullanın"]
    case InsecureContext => ["HTTPS protokolü üzerinden erişin"]
    case NotAndroid => ["Android cihaz kullanın"]
    case NoHardware => ["NFC özelliği olan bir cihaz kullanın", "Cihaz ayarlarından NFC'yi etkinleştirin"]
  }

  datatype Compatibility = Compatibility(
    isSupported: bool, hasNfcHardware: bool, isSecureContext: bool, isSuitableBrowser: bool,
    browserInfo: string, chromeVersion: nat, safariVersion: nat, deviceInfo: Device,
    details: string, requirements: seq<string>)

  /** `checkNfcCompatibility()`: works out each field of the result, then returns the record. */
  method CheckNfcCompatibility(nav: Navigator, win: Browser) returns (r: Compatibility)
    ensures r.browserInfo == nav.userAgent && r.isSecureContext == win.isSecureContext
    ensures r.deviceInfo == DetectDevice(nav)
    ensures r.chromeVersion == ChromeVersion(nav.userAgent) && r.safariVersion == SafariVersion(nav.userAgent)
    ensures r.isSuitableBrowser <==> Contains(nav.userAgent, "Chrome") && r.chromeVersion >= MinChromeVersion
    ensures r.isSupported <==> win.hasNdefReader
    ensures r.hasNfcHardware <==> win.hasNdefReader
    ensures var d := Diagnose(nav.userAgent, r.chromeVersion, win);
      r.details == DetailsText(d) && r.requirements == Requirements(d)
  {
    var ua := nav.userAgent;
    var isSupported, hasNfcHardware, details, requirements := false, false, "", [];
    var chromeVersion := ChromeVersion(ua);
    var safariVersion := SafariVersion(ua);
    var isSuitableBrowser := Contains(ua, "Chrome") && chromeVersion >= MinChromeVersion;
    if win.hasNdefReader {
      isSupported, hasNfcHardware := true, true;
      details := DetailsText(Supported);
    } else {
      isSupported := false;
      if !Contains(ua, "Chrome") {
        details := DetailsText(NotChrome);
        requirements := requirements + ["Chrome tarayıcısı kullanın"];
      } else if chromeVersion < MinChromeVersion {
        details := DetailsText(ChromeTooOld(chromeVersion));
        requirements := requirements + ["Chrome 89 veya üstü bir sürüm kullanın"];
      } else if !win.isSecureContext {
        details := DetailsText(InsecureContext);
        requirements := requirements + ["HTTPS protokolü üzerinden erişin"];
      } else if !Contains(ua, "Android") {
        details := DetailsText(NotAndroid);
        requirements := requirements + ["Android cihaz kullanın"];
      } else {
        details := DetailsText(NoHardware);
        hasNfcHardware := false;
        requirements := requirements + ["NFC özelliği olan bir cihaz kullanın"];
        requirements := requirements + ["Cihaz ayarlarından NFC'yi etkinleştirin"];
      }
    }
    r := Compatibility(isSupported, hasNfcHardware, win.isSecureContext, isSuitableBrowser, ua,
                       chromeVersion, safariVersion, DetectDevice(nav), details, requirements);
  }

  /** Without a reader, the browser is suitable exactly when the diagnosis lies past the two browser checks. */
  lemma SuitableBrowserPassesBrowserChecks(ua: string, win: Browser)
    requires !win.hasNdefReader
    ensures var d := Diagnose(ua, ChromeVersion(ua), win);
      (Contains(ua, "Chrome") && ChromeVersion(ua) >= MinChromeVersion) <==> !(d == NotChrome || d.ChromeTooOld?)
  {
  }

  const SupportedMessage: string := "NFC destekleniyor ve kullanılabilir."
  const UnsupportedTitle: string := "NFC Desteklenmiyor"
  const GeneralAdvice: string :=
    "Web NFC API şu anda sadece Android cihazlarda Chrome 89+ tarayıcısında HTTPS protokolü ile desteklenmektedir."

  /** What `getNfcSupportMessage` returns: a plain string, or an explanation object. */
  datatype SupportMessage =
    | Plain(text: string)
    | Advice(title: string, description: string, requirements: seq<string>, generalAdvice: string)

  /** `getNfcSupportMessage()`: the plain message exactly when NFC is supported, otherwise the diagnosis. */
  method GetNfcSupportMessage(nav: Navigator, win: Browser) returns (m: SupportMessage)
    ensures m.Plain? <==> win.hasNdefReader
    ensures m.Plain? ==> m.text == SupportedMessage
    ensures m.Advice? ==>
      var d := Diagnose(nav.userAgent, ChromeVersion(nav.userAgent), win);
      m == Advice(UnsupportedTitle, DetailsText(d), Requirements(d), GeneralAdvice) && |m.requirements| >= 1
  {
    var compatibility := CheckNfcCompatibility(nav, win);
    if compatibility.isSupported {
      return Plain(SupportedMessage);
    }
    m := Advice(UnsupportedTitle, compatibility.details, compatibility.requirements, GeneralAdvice);
  }

  // ---------------------------------------------------------------- Apple test mode

  datatype AppleTestConfig = AppleTestConfig(
    enabled: bool, deviceType: string, osVersion: string, simulateDelay: int,
    simulateErrors: bool, errorRate: real, prefixSerialNumber: string, persistSimulation: bool)

  /** The caller's options: each key supplied or not. */
  datatype AppleTestOptions = AppleTestOptions(
    enabled: Option<bool>, deviceType: Option<string>, osVersion: Option<string>, simulateDelay: Option<int>,
    simulateErrors: Option<bool>, errorRate: Option<real>, prefixSerialNumber: Option<string>,
    persistSimulation: Option<bool>)

  const DefaultAppleConfig: AppleTestConfig :=
    AppleTestConfig(true, "iPhone", "16.0", 1500, false, 0.2, "APPLE-", true)

  const NoOptions: AppleTestOptions := AppleTestOptions(None, None, None, None, None, None, None, None)

  function Pick<T>(o: Option<T>, default: T): T {
    if o.Some? then o.value else default
  }

  /** `{ ...defaultOptions, ...options }`: a supplied key wins, an unsupplied key keeps its default. */
  function ConfigureAppleTestMode(options: AppleTestOptions): (c: AppleTestConfig)
    ensures options.enabled.Some? ==> c.enabled == options.enabled.value
    ensures options.enabled.None? ==> c.enabled == DefaultAppleConfig.enabled
    ensures options.deviceType.Some? ==> c.deviceType == options.deviceType.value
    ensures options.deviceType.None? ==> c.deviceType == DefaultAppleConfig.deviceType
    ensures options.osVersion.Some? ==> c.osVersion == options.osVersion.value
    ensures options.osVersion.None? ==> c.osVersion == DefaultAppleConfig.osVersion
    ensures options.simulateDelay.Some? ==> c.simulateDelay == options.simulateDelay.value
    ensures options.simulateDelay.None? ==> c.simulateDelay == DefaultAppleConfig.simulateDelay
    ensures options.simulateErrors.Some? ==> c.simulateErrors == options.simulateErrors.value
    ensures options.simulateErrors.None? ==> c.simulateErrors == DefaultAppleConfig.simulateErrors
    ensures options.errorRate.Some? ==> c.errorRate == options.errorRate.value
    ensures options.errorRate.None? ==> c.errorRate == DefaultAppleConfig.errorRate
    ensures options.prefixSerialNumber.Some? ==> c.prefixSerialNumber == options.prefixSerialNumber.value
    ensures options.prefixSerialNumber.None? ==> c.prefixSerialNumber == DefaultAppleConfig.prefixSerialNumber
    ensures options.persistSimulation.Some? ==> c.persistSimulation == options.persistSimulation.value
    ensures options.persistSimulation.None? ==> c.persistSimulation == DefaultAppleConfig.persistSimulation
  {
    AppleTestConfig(
      Pick(options.enabled, DefaultAppleConfig.enabled),
      Pick(options.deviceType, DefaultAppleConfig.deviceType),
      Pick(options.osVersion, DefaultAppleConfig.osVersion),
      Pick(options.simulateDelay, DefaultAppleConfig.simulateDelay),
      Pick(options.simulateErrors, DefaultAppleConfig.simulateErrors),
      Pick(options.errorRate, DefaultAppleConfig.errorRate),
      Pick(options.prefixSerialNumber, DefaultAppleConfig.prefixSerialNumber),
      Pick(options.persistSimulation, DefaultAppleConfig.persistSimulation))
  }

  /** Every key of a configuration, supplied as an option. */
  function OptionsOf(c: AppleTestConfig): AppleTestOptions {
    AppleTestOptions(Some(c.enabled), Some(c.deviceType), Some(c.osVersion), Some(c.simulateDelay),
                     Some(c.simulateErrors), Some(c.errorRate), Some(c.prefixSerialNumber),
                     Some(c.persistSimulation))
  }

  /** No options give the defaults, and a full set of options gives exactly those options. */
  lemma MergeLaws(c: AppleTestConfig)
    ensures ConfigureAppleTestMode(NoOptions) == DefaultAppleConfig
    ensures ConfigureAppleTestMode(OptionsOf(c)) == c
  {
  }

  // ---------------------------------------------------------------- written-tag log

  const MaxWrittenTags: nat := 10

  datatype WrittenTag = WrittenTag(timestamp: int, data: string)

  /** `array.slice(-n)` for `n > 0`: the last `n` entries, or all of them when there are fewer. */
  function KeepLast<T>(s: seq<T>, n: nat): (r: seq<T>)
    requires n > 0
    ensures |r| == if |s| <= n then |s| else n
    ensures r == s[|s| - |r|..]
  {
    if |s| <= n then s else s[|s| - n..]
  }

  /** Truncating after each append keeps the same entries as truncating the whole history once. */
  lemma KeepLastAppend<T>(s: seq<T>, x: T, n: nat)
    requires n > 0
    ensures KeepLast(KeepLast(s, n) + [x], n) == KeepLast(s + [x], n)
  {
    var k := KeepLast(s, n);
    assert k + [x] == (s + [x])[|s| - |k|..];
  }

  datatype WriteOutcome = Written | Thrown(message: string)

  const WriteError: string := "Apple NFC yazma hatası: Etiket salt okunur"

  /** The `appleNfcWrittenTags` entry of local storage. */
  class WrittenTagLog {
    var tags: seq<WrittenTag>

    ghost predicate Valid()
      reads this
    {
      |tags| <= MaxWrittenTags
    }

    constructor ()
      ensures tags == [] && Valid()
    {
      tags := [];
    }

    /**
     * `simulateAppleNfcWriting(writeData)`: `draw` is the `Math.random()` value read when errors are
     * simulated. A persisted write appends the tag and keeps the ten most recent, newest last.
     */
    method SimulateAppleNfcWriting(config: AppleTestConfig, writeData: Option<string>, now: int, draw: real)
      returns (outcome: WriteOutcome)
      requires Valid()
      modifies this
      ensures Valid()
      ensures config.simulateErrors && draw < config.errorRate ==>
        outcome == Thrown(WriteError) && tags == old(tags)
      ensures !(config.simulateErrors && draw < config.errorRate) ==>
        && outcome == Written
        && tags == if config.persistSimulation && Present(writeData)
                   then KeepLast(old(tags) + [WrittenTag(now, writeData.value)], MaxWrittenTags)
                   else old(tags)
      ensures outcome == Written && config.persistSimulation && Present(writeData) ==>
        |tags| > 0 && tags[|tags| - 1] == WrittenTag(now, writeData.value)
    {
      if config.simulateErrors && draw < config.errorRate {
        return Thrown(WriteError);
      }
      if config.persistSimulation && Present(writeData) {
        var written := tags;
        written := written + [WrittenTag(now, writeData.value)];
        tags := KeepLast(written, MaxWrittenTags);
      }
      outcome := Written;
    }
  }

  /** The log a run of persisted writes leaves: the last ten of all of them. */
  function LogAfter(history: seq<WrittenTag>): (log: seq<WrittenTag>)
    ensures |log| <= MaxWrittenTags
  {
    if history == [] then [] else KeepLast(LogAfter(history[..|history| - 1]) + [history[|history| - 1]], MaxWrittenTags)
  }

  /** Whatever the number of writes, the log holds the ten most recent, oldest first. */
  lemma {:induction false} LogAfterIsLastTen(history: seq<WrittenTag>)
    ensures LogAfter(history) == KeepLast(history, MaxWrittenTags)
  {
    if history != [] {
      var init, last := history[..|history| - 1], history[|history| - 1];
      LogAfterIsLastTen(init);
      KeepLastAppend(init, last, MaxWrittenTags);
      assert init + [last] == history;
    }
  }
}
