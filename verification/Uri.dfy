/**
 Pyro URIs: the parser and the printer (`URI` in src/Pyro4/core.py). The two regular expressions are written out
 as functions; decimal digits are those of ASCII.
 */
module Uri {
  import opened Common

  datatype Object = Name(name: string) | Tags(tags: set<string>)

  /** What the location part sets: nothing, `sockname`, or `host` and `port`. */
  datatype Location = Nowhere | UnixSocket(sockname: string) | Address(host: string, port: int)

  datatype Uri = Uri(protocol: string, object_: Object, location: Location)

  datatype UriError = InvalidUri | InvalidProtocol | InvalidLocation | InvalidIpv6 | InvalidPort

  // -------------------------------------------------------------- characters

  /** White space, as `\s` and `str.strip` understand it. */
  predicate IsSpace(c: char) {
    var n := c as int;
    9 <= n <= 13 || 28 <= n <= 32 || n == 0x85 || n == 0xA0 || n == 0x1680 || 0x2000 <= n <= 0x200A
    || n == 0x2028 || n == 0x2029 || n == 0x202F || n == 0x205F || n == 0x3000
  }

  predicate IsLetter(c: char) { 'a' <= c <= 'z' || 'A' <= c <= 'Z' }

  predicate IsDigit(c: char) { '0' <= c <= '9' }

  /** The characters of a bracketed IPv6 address. */
  predicate IsIpv6Char(c: char) { IsDigit(c) || 'a' <= c <= 'f' || 'A' <= c <= 'F' || c == ':' || c == '%' }

  function Upper(c: char): char {
    if 'a' <= c <= 'z' then c - 'a' + 'A' else c
  }

  function UpperAll(s: string): (r: string)
    ensures |r| == |s|
  {
    if s == [] then [] else [Upper(s[0])] + UpperAll(s[1..])
  }

  predicate NoSpace(s: string) {
    forall i :: 0 <= i < |s| ==> !IsSpace(s[i])
  }

  /** Index of the first `c`, or the length. */
  function Find(s: string, c: char): (k: nat)
    ensures k <= |s| && (k < |s| ==> s[k] == c) && forall i :: 0 <= i < k ==> s[i] != c
  {
    if s == [] || s[0] == c then 0 else 1 + Find(s[1..], c)
  }

  function SplitCommas(s: string): (r: seq<string>)
    ensures r != []
    decreases |s|
  {
    var k := Find(s, ',');
    if k == |s| then [s] else [s[..k]] + SplitCommas(s[k + 1..])
  }

  function JoinCommas(ts: seq<string>): string {
    if ts == [] then "" else if |ts| == 1 then ts[0] else ts[0] + "," + JoinCommas(ts[1..])
  }

  function Strip(s: string): string {
    if s != [] && IsSpace(s[0]) then Strip(s[1..])
    else if s != [] && IsSpace(s[|s| - 1]) then Strip(s[..|s| - 1])
    else s
  }

  // ----------------------------------------------------------------- numbers

  /** Digits with single underscores between them. */
  function ParseDigits(s: string, n: int, afterDigit: bool): (r: Option<int>)
    ensures r.Some? && n >= 0 ==> r.value >= 0
  {
    if s == [] then (if afterDigit then Some(n) else None)
    else if IsDigit(s[0]) then ParseDigits(s[1..], 10 * n + (s[0] - '0') as int, true)
    else if s[0] == '_' && afterDigit then ParseDigits(s[1..], n, false)
    else None
  }

  /** `int(s)` for a string. */
  function ParseInt(s: string): Option<int> {
    var t := Strip(s);
    if t != [] && t[0] == '-' then
      (match ParseDigits(t[1..], 0, false)
       case Some(n) => Some(-n)
       case None => None)
    else
      match ParseDigits(if t != [] && t[0] == '+' then t[1..] else t, 0, false)
      case Some(n) => Some(n)
      case None => None
  }

  function ShowNat(n: nat): (s: string)
    ensures s != [] && forall i :: 0 <= i < |s| ==> IsDigit(s[i])
  {
    if n < 10 then ['0' + n as char] else ShowNat(n / 10) + ['0' + (n % 10) as char]
  }

  /** `"%d" % n` */
  function Show(n: int): string {
    if n < 0 then "-" + ShowNat(-n) else ShowNat(n)
  }

  lemma {:induction false} DigitsRoundTrip(n: nat, rest: string)
    ensures ParseDigits(ShowNat(n) + rest, 0, false) == ParseDigits(rest, n, true)
  {
    if n >= 10 {
      var d := ['0' + (n % 10) as char];
      assert ShowNat(n) + rest == ShowNat(n / 10) + (d + rest);
      DigitsRoundTrip(n / 10, d + rest);
    }
  }

  lemma NumberRoundTrip(n: int)
    ensures ParseInt(Show(n)) == Some(n)
    ensures forall i :: 0 <= i < |Show(n)| ==> IsDigit(Show(n)[i]) || Show(n)[i] == '-'
    ensures n >= 0 ==> forall i :: 0 <= i < |Show(n)| ==> IsDigit(Show(n)[i])
  {
    var k: nat := if n < 0 then -n else n;
    DigitsRoundTrip(k, "");
    assert ShowNat(k) + "" == ShowNat(k);
    if n < 0 {
      assert Show(n)[1..] == ShowNat(k);
    }
    assert Strip(Show(n)) == Show(n);
  }

  lemma {:induction false} StripPadding(w: string, s: string, w': string)
    requires s != "" && !IsSpace(s[0]) && !IsSpace(s[|s| - 1])
    requires forall i :: 0 <= i < |w| ==> IsSpace(w[i])
    requires forall i :: 0 <= i < |w'| ==> IsSpace(w'[i])
    ensures Strip(w + s + w') == s
    decreases |w| + |w'|
  {
    var t := w + s + w';
    if w != [] {
      assert t[0] == w[0] && t[1..] == w[1..] + s + w';
      StripPadding(w[1..], s, w');
    } else if w' != [] {
      var n := |w'| - 1;
      assert t[0] == s[0] && t[|t| - 1] == w'[n] && t[..|t| - 1] == w + s + w'[..n];
      StripPadding(w, s, w'[..n]);
    } else {
      assert t == s;
    }
  }

  /** A number may stand between spaces, and have a sign. */
  lemma NumberForms(n: int, w: string, w': string)
    requires forall i :: 0 <= i < |w| ==> IsSpace(w[i])
    requires forall i :: 0 <= i < |w'| ==> IsSpace(w'[i])
    ensures ParseInt(w + Show(n) + w') == Some(n)
    ensures n >= 0 ==> ParseInt(w + ("+" + Show(n)) + w') == Some(n)
  {
    NumberRoundTrip(n);
    var s := Show(n);
    assert s != "" && !IsSpace(s[0]) && !IsSpace(s[|s| - 1]);
    StripPadding(w, s, w');
    StripPadding("", s, "");
    assert "" + s + "" == s;
    if n >= 0 {
      var t := "+" + s;
      assert t[|t| - 1] == s[|s| - 1] && t[1..] == s && t[0] == '+';
      StripPadding(w, t, w');
      hide Strip;
    }
  }

  predicate DigitsOrUnderscores(s: string) {
    forall i :: 0 <= i < |s| ==> IsDigit(s[i]) || s[i] == '_'
  }

  predicate FollowsAt(s: string, afterDigit: bool, i: nat)
    requires i < |s|
  {
    s[i] == '_' ==> if i == 0 then afterDigit else IsDigit(s[i - 1])
  }

  /** Every underscore follows a digit. */
  predicate FollowDigits(s: string, afterDigit: bool) {
    forall i: nat :: i < |s| ==> FollowsAt(s, afterDigit, i)
  }

  lemma FollowTail(s: string, afterDigit: bool)
    requires s != ""
    ensures FollowDigits(s, afterDigit) <==> FollowsAt(s, afterDigit, 0) && FollowDigits(s[1..], IsDigit(s[0]))
    ensures DigitsOrUnderscores(s) <==> (IsDigit(s[0]) || s[0] == '_') && DigitsOrUnderscores(s[1..])
  {
    var t := s[1..];
    forall j: nat | j < |t| ensures t[j] == s[j + 1] && (FollowsAt(t, IsDigit(s[0]), j) <==> FollowsAt(s, afterDigit, j + 1)) {}
    assert forall i: nat :: 0 < i < |s| ==> s[i] == t[i - 1] && (FollowsAt(s, afterDigit, i) <==> FollowsAt(t, IsDigit(s[0]), i - 1));
  }

  /** And nothing but digits and single underscores between them. */
  lemma {:induction false} DigitsOnly(s: string, n: int, afterDigit: bool)
    ensures ParseDigits(s, n, afterDigit).Some? <==>
              && DigitsOrUnderscores(s) && FollowDigits(s, afterDigit)
              && (if s == "" then afterDigit else IsDigit(s[|s| - 1]))
  {
    if s != "" {
      FollowTail(s, afterDigit);
      var t := s[1..];
      assert t != "" ==> t[|t| - 1] == s[|s| - 1];
      if IsDigit(s[0]) {
        DigitsOnly(t, 10 * n + (s[0] - '0') as int, true);
      } else if s[0] == '_' && afterDigit {
        DigitsOnly(t, n, false);
      }
      hide FollowDigits, DigitsOrUnderscores;
    }
  }

  // ----------------------------------------------------------------- parsing

  /** `(?P<object>\S+?)(@(?P<location>.+))?$` from position k on: the shortest object that leaves nothing, or an
      at sign and something on one line. */
  function SplitObject(s: string, k: nat): Option<(string, string)>
    requires k <= |s|
    decreases |s| - k
  {
    if k > 0 && k == |s| then Some((s, ""))
    else if k > 0 && s[k] == '@' && k + 1 < |s| && '\n' !in s[k + 1..] then Some((s[..k], s[k + 1..]))
    else if k < |s| && !IsSpace(s[k]) then SplitObject(s, k + 1)
    else None
  }

  /** `$` also matches before a newline at the end, which nothing else in the expression matches. */
  function ChopNewline(s: string): string {
    if s != [] && s[|s| - 1] == '\n' then s[..|s| - 1] else s
  }

  /** Protocol, object, and location; an absent location is empty. */
  function MatchUri(s: string): Option<(string, string, string)> {
    var k := Find(s, ':');
    if k == |s| then None
    else
      var protocol := UpperAll(s[..k]);
      if k < 4 || protocol[..4] != "PYRO" || exists i :: 0 <= i < k && !IsLetter(s[i]) then None
      else match SplitObject(ChopNewline(s[k + 1..]), 0)
           case None => None
           case Some((object_, location)) => Some((protocol, object_, location))
  }

  function Run(s: string, k: nat, p: char -> bool): (end: nat)
    requires k <= |s|
    ensures k <= end <= |s| && (forall i :: k <= i < end ==> p(s[i])) && (end < |s| ==> !p(s[end]))
    decreases |s| - k
  {
    if k < |s| && p(s[k]) then Run(s, k + 1, p) else k
  }

  /** Host and the text of the port, which may be missing. */
  function HostAndPort(location: string): Result<(string, string), UriError> {
    if location != [] && location[0] == '[' then
      if |location| > 1 && location[1] == '[' then Err(InvalidIpv6)
      else
        var end := Run(location, 1, IsIpv6Char);
        if end == 1 || end == |location| || location[end] != ']' then Err(InvalidIpv6)
        else if end + 1 < |location| && location[end + 1] == ':' then
          Ok((location[1..end], location[end + 2..Run(location, end + 2, IsDigit)]))
        else Ok((location[1..end], ""))
    else
      var k := Find(location, ':');
      Ok((location[..k], if k < |location| then location[k + 1..] else ""))
  }

  function ParseLocation(location: string, defaultPort: Option<int>): Result<Location, UriError> {
    if location == "" then Ok(Nowhere)
    else if "./u:" <= location then
      var sockname := location[4..];
      if sockname == "" || ':' in sockname then Err(InvalidLocation) else Ok(UnixSocket(sockname))
    else
      match HostAndPort(location)
      case Err(e) => Err(e)
      case Ok((host, port)) =>
        match if port == "" then defaultPort else ParseInt(port)
        case None => Err(InvalidPort)
        case Some(n) => Ok(Address(host, n))
  }

  function TagSet(object_: string): set<string> {
    set t | t in SplitCommas(object_) :: Strip(t)
  }

  /** `URI(s)`; `nsPort` is the configured port of the name server. */
  function Parse(s: string, nsPort: int): Result<Uri, UriError> {
    match MatchUri(s)
    case None => Err(InvalidUri)
    case Some((protocol, object_, location)) =>
      if protocol == "PYRONAME" then WithLocation(protocol, Name(object_), location, Some(nsPort))
      else if protocol == "PYRO" then
        if location == "" then Err(InvalidUri) else WithLocation(protocol, Name(object_), location, None)
      else if protocol == "PYROMETA" then WithLocation(protocol, Tags(TagSet(object_)), location, Some(nsPort))
      else Err(InvalidProtocol)
  }

  function WithLocation(protocol: string, object_: Object, location: string, port: Option<int>): Result<Uri, UriError> {
    match ParseLocation(location, port)
    case Err(e) => Err(e)
    case Ok(l) => Ok(Uri(protocol, object_, l))
  }

  // ---------------------------------------------------------------- printing

  function LocationString(l: Location): string {
    match l
    case Nowhere => ""
    case UnixSocket(sockname) => "./u:" + sockname
    case Address(host, port) =>
      if host == "" then "" else if ':' in host then "[" + host + "]:" + Show(port) else host + ":" + Show(port)
  }

  /** `asString`; `order` is the order in which the tag set happens to be iterated. */
  function Print(u: Uri, order: seq<string>): string {
    u.protocol + ":" + (if u.object_.Tags? then JoinCommas(order) else u.object_.name)
    + (if LocationString(u.location) == "" then "" else "@" + LocationString(u.location))
  }

  // ---------------------------------------------------------------- the code

  class URI {
    var protocol: string
    var object_: Object
    var sockname: Option<string>
    var host: Option<string>
    var port: Option<int>

    ghost predicate Valid()
      reads this
    {
      && (host.Some? <==> port.Some?)
      && (sockname.Some? ==> sockname.value != "" && host.None?)
    }

    ghost function Where(): Location
      reads this
      requires Valid()
    {
      if sockname.Some? then UnixSocket(sockname.value)
      else if host.Some? then Address(host.value, port.value)
      else Nowhere
    }

    ghost function Value(): Uri
      reads this
      requires Valid()
    {
      Uri(protocol, object_, Where())
    }

    constructor ()
      ensures sockname == None && host == None && port == None
    {
      protocol, object_, sockname, host, port := "", Name(""), None, None, None;
    }

    /** `_parseLocation`; what it raises becomes its result. */
    method SetLocation(location: string, defaultPort: Option<int>) returns (error: Option<UriError>)
      requires sockname == None && host == None && port == None
      modifies this`sockname, this`host, this`port
      ensures match ParseLocation(location, defaultPort)
              case Ok(l) => error == None && Valid() && Where() == l
              case Err(e) => error == Some(e)
    {
      if location == "" { return None; }
      if "./u:" <= location {
        sockname := Some(location[4..]);
        if sockname.value == "" || ':' in sockname.value { return Some(InvalidLocation); }
        return None;
      }
      match HostAndPort(location) {
        case Err(e) => return Some(e);
        case Ok((h, p)) =>
          host := Some(h);
          port := if p == "" then defaultPort else ParseInt(p);
          if port == None { return Some(InvalidPort); }
          return None;
      }
    }

    /** The rest of the constructor. */
    method Read(uri: string, nsPort: int) returns (error: Option<UriError>)
      requires sockname == None && host == None && port == None
      modifies this
      ensures match Parse(uri, nsPort)
              case Ok(u) => error == None && Valid() && Value() == u
              case Err(e) => error == Some(e)
    {
      match MatchUri(uri) {
        case None => return Some(InvalidUri);
        case Some((p, o, location)) =>
          protocol, object_ := p, Name(o);
          if protocol == "PYRONAME" {
            error := SetLocation(location, Some(nsPort));
          } else if protocol == "PYRO" {
            if location == "" { return Some(InvalidUri); }
            error := SetLocation(location, None);
          } else if protocol == "PYROMETA" {
            object_ := Tags(TagSet(o));
            error := SetLocation(location, Some(nsPort));
          } else {
            error := Some(InvalidProtocol);
          }
      }
    }

    /** The property `location`. */
    method LocationText() returns (text: Option<string>)
      requires Valid()
      ensures text == if LocationString(Where()) == "" then None else Some(LocationString(Where()))
    {
      if host.Some? && host.value != "" {
        if ':' in host.value {
          text := Some("[" + host.value + "]:" + Show(port.value));
        } else {
          text := Some(host.value + ":" + Show(port.value));
        }
      } else if sockname.Some? {
        text := Some("./u:" + sockname.value);
      } else {
        text := None;
      }
    }

    method AsString(order: seq<string>) returns (text: string)
      requires Valid()
      ensures text == Print(Value(), order)
    {
      text := protocol + ":" + match object_ { case Tags(_) => JoinCommas(order) case Name(n) => n };
      var location := LocationText();
      if location.Some? { text := text + "@" + location.value; }
    }
  }

  // ------------------------------------------------------- splitting, undone

  /** An object the expression can produce: where an at sign may stand depends on whether a location follows. */
  ghost predicate Shape(o: string, located: bool) {
    && o != "" && NoSpace(o)
    && forall i :: 1 <= i < |o| && o[i] == '@' ==> !located && i + 1 == |o|
  }

  lemma {:induction false} SplitShape(s: string, k: nat)
    requires k <= |s| && NoSpace(s[..k])
    requires forall i :: 1 <= i < k && s[i] == '@' ==> i + 1 == |s| || '\n' in s[i + 1..]
    ensures SplitObject(s, k).Some? ==>
              var (o, l) := SplitObject(s, k).value;
              Shape(o, l != "") && '\n' !in l && s == o + (if l == "" then "" else "@" + l)
    decreases |s| - k
  {
    if k > 0 && k == |s| {
      assert s[..k] == s;
      assert forall c :: IsSpace(c) <== c == '\n';
    } else if k > 0 && s[k] == '@' && k + 1 < |s| && '\n' !in s[k + 1..] {
      var o := s[..k];
      forall j | 0 <= j < |s| ensures s[j] != '\n' {
        if j < k { assert s[j] == s[..k][j]; } else if j > k { assert s[j] == s[k + 1..][j - k - 1]; }
      }
      assert '\n' !in s;
      assert s == o + ("@" + s[k + 1..]);
    } else if k < |s| && !IsSpace(s[k]) {
      assert s[..k + 1] == s[..k] + [s[k]];
      SplitShape(s, k + 1);
    }
  }

  /** `s` can be split at k as the expression demands. */
  ghost predicate Splits(s: string, k: nat) {
    && 1 <= k <= |s| && NoSpace(s[..k])
    && (k < |s| ==> s[k] == '@' && k + 1 < |s| && '\n' !in s[k + 1..])
  }

  /** The lazy object is the shortest one for which the whole expression matches. */
  lemma {:induction false} ShortestObject(s: string, k: nat)
    requires k <= |s| && NoSpace(s[..k])
    ensures match SplitObject(s, k)
            case None => forall n :: k <= n ==> !Splits(s, n)
            case Some((o, l)) => |o| >= k && o <= s && Splits(s, |o|) && (forall n :: k <= n < |o| ==> !Splits(s, n))
                                 && l == if |o| == |s| then "" else s[|o| + 1..]
    decreases |s| - k
  {
    if k > 0 && k == |s| {
    } else if k > 0 && s[k] == '@' && k + 1 < |s| && '\n' !in s[k + 1..] {
      assert Splits(s, k);
    } else if k < |s| && !IsSpace(s[k]) {
      assert s[..k + 1] == s[..k] + [s[k]];
      ShortestObject(s, k + 1);
    } else {
      forall n | k < n <= |s| ensures !Splits(s, n) { assert s[..n][k] == s[k]; }
    }
  }

  /** The first at sign that has something before and after it splits. */
  lemma {:induction false} SplitAt(s: string, at: nat, k: nat)
    requires k <= at && 1 <= at && at + 1 < |s| && s[at] == '@' && '\n' !in s
    requires NoSpace(s[..at])
    requires forall i :: 1 <= i < at ==> s[i] != '@'
    ensures SplitObject(s, k) == Some((s[..at], s[at + 1..]))
    decreases at - k
  {
    if k < at {
      assert s[..at][k] == s[k];
      SplitAt(s, at, k + 1);
    }
  }

  lemma {:induction false} SplitNowhere(s: string, k: nat)
    requires Shape(s, false) && k <= |s|
    ensures SplitObject(s, k) == Some((s, ""))
    decreases |s| - k
  {
    if k < |s| { SplitNowhere(s, k + 1); }
  }

  lemma SplitUndone(o: string, l: string)
    requires Shape(o, l != "") && '\n' !in l
    ensures SplitObject(o + (if l == "" then "" else "@" + l), 0) == Some((o, l))
  {
    if l == "" {
      SplitNowhere(o, 0);
      assert o + "" == o;
    } else {
      var s := o + ("@" + l);
      assert s[..|o|] == o && s[|o| + 1..] == l;
      assert forall i :: 0 <= i < |o| ==> s[i] == o[i];
      assert IsSpace('\n') && '\n' !in o;
      SplitAt(s, |o|, 0);
    }
  }

  /** An at sign inside the object, or before a location, is taken for the start of the location. */
  lemma SplitTooEarly(s: string, at: nat)
    requires 1 <= at && at + 1 < |s| && s[at] == '@' && '\n' !in s && NoSpace(s[..at])
    ensures SplitObject(s, 0).Some?
    ensures var (o, l) := SplitObject(s, 0).value;
            1 <= |o| <= at && o == s[..|o|] && l != "" && forall i :: 1 <= i < |o| ==> o[i] != '@'
  {
    var first := 1 + Find(s[1..], '@');
    assert s[1..][at - 1] == '@';
    assert forall i :: 1 <= i < first ==> s[i] == s[1..][i - 1];
    assert s[first] == s[1..][first - 1];
    assert NoSpace(s[..first]) by { assert forall i :: 0 <= i < first ==> s[..first][i] == s[..at][i]; }
    SplitAt(s, first, 0);
  }

  lemma {:induction false} UpperUnchanged(s: string)
    requires forall i :: 0 <= i < |s| ==> 'A' <= s[i] <= 'Z'
    ensures UpperAll(s) == s
  {
    if s != [] { UpperUnchanged(s[1..]); }
  }

  ghost predicate Protocol(p: string) {
    p == "PYRO" || p == "PYRONAME" || p == "PYROMETA"
  }

  lemma ProtocolPart(p: string, rest: string)
    requires forall i :: 0 <= i < |p| ==> IsLetter(p[i])
    ensures MatchUri(p + ":" + rest) ==
            if |p| < 4 || UpperAll(p)[..4] != "PYRO" then None
            else match SplitObject(ChopNewline(rest), 0) case None => None case Some((o, l)) => Some((UpperAll(p), o, l))
  {
    var s := p + ":" + rest;
    ColonAfter(p, rest);
    hide SplitObject, Find, UpperAll, ChopNewline;
    assert forall i :: 0 <= i < |p| ==> s[i] == p[i] && IsLetter(s[i]);
  }

  lemma ColonAfter(p: string, rest: string)
    requires forall i :: 0 <= i < |p| ==> IsLetter(p[i])
    ensures var s := p + ":" + rest; Find(s, ':') == |p| && s[..|p|] == p && s[|p| + 1..] == rest
  {
    var s := p + ":" + rest;
    assert s[|p|] == ':';
    assert forall i :: 0 <= i < |p| ==> s[i] == p[i] && IsLetter(p[i]);
  }

  lemma MatchPrinted(p: string, rest: string)
    requires Protocol(p) && '\n' !in rest
    ensures MatchUri(p + ":" + rest) == match SplitObject(rest, 0) case None => None case Some((o, l)) => Some((p, o, l))
  {
    hide SplitObject, MatchUri, Find;
    ProtocolLetters(p);
    hide Protocol;
    ProtocolPart(p, rest);
    UpperUnchanged(p);
    hide UpperAll;
    assert ChopNewline(rest) == rest;
  }

  lemma ProtocolLetters(p: string)
    requires Protocol(p)
    ensures |p| >= 4 && p[..4] == "PYRO" && forall i :: 0 <= i < |p| ==> 'A' <= p[i] <= 'Z'
  {}

  // ---------------------------------------------------------------- locations

  /** Locations the parser can produce. */
  ghost predicate Plausible(l: Location, defaultPort: Option<int>) {
    match l
    case Nowhere => true
    case UnixSocket(sockname) => sockname != "" && ':' !in sockname && '\n' !in sockname
    case Address(host, port) =>
      && '\n' !in host
      && (':' in host ==> (forall i :: 0 <= i < |host| ==> IsIpv6Char(host[i])) && (port >= 0 || defaultPort == Some(port)))
      && (host != "" ==> host[0] != '[')
  }

  /** An empty host is not printed, and the host `./u` prints as a socket name. */
  predicate PrintableLocation(l: Location) {
    l.Address? ==> l.host != "" && l.host != "./u"
  }

  lemma RunIs(s: string, k: nat, p: char -> bool, end: nat)
    requires k <= end <= |s| && (forall i :: k <= i < end ==> p(s[i])) && (end < |s| ==> !p(s[end]))
    ensures Run(s, k, p) == end
  {}

  lemma {:induction false} DigitsNotNegative(s: string, n: nat, afterDigit: bool)
    requires forall i :: 0 <= i < |s| ==> IsDigit(s[i])
    ensures ParseInt(s).Some? ==> ParseInt(s).value >= 0
  {
    assert s != [] ==> Strip(s) == s;
  }

  lemma ParsedIsPlausible(location: string, defaultPort: Option<int>)
    requires '\n' !in location && ParseLocation(location, defaultPort).Ok?
    ensures Plausible(ParseLocation(location, defaultPort).value, defaultPort)
    ensures ParseLocation(location, defaultPort).value == Nowhere <==> location == ""
  {
    if location != "" && !("./u:" <= location) {
      var (host, port) := HostAndPort(location).value;
      if location[0] == '[' {
        var end := Run(location, 1, IsIpv6Char);
        assert forall i :: 0 <= i < |host| ==> host[i] == location[i + 1] && IsIpv6Char(host[i]);
        if port != "" {
          assert forall i :: 0 <= i < |port| ==> port[i] == location[end + 2 + i] && IsDigit(port[i]);
          DigitsNotNegative(port, 0, false);
        }
      }
    }
  }

  /** What is printed for a location reads back as that location, for printable ones and only for those. */
  lemma LocationRoundTrip(l: Location, defaultPort: Option<int>)
    requires Plausible(l, defaultPort)
    ensures '\n' !in LocationString(l)
    ensures ParseLocation(LocationString(l), defaultPort) == Ok(l) <==> PrintableLocation(l)
    ensures PrintableLocation(l) ==> (LocationString(l) == "" <==> l == Nowhere)
  {
    match l
    case Nowhere =>
    case UnixSocket(sockname) =>
      assert LocationString(l)[4..] == sockname;
      assert LocationString(l)[..4] == "./u:";
    case Address(host, port) =>
      NumberRoundTrip(port);
      var s := LocationString(l);
      if host == "" {
      } else if ':' in host {
        BracketedRoundTrip(host, port, defaultPort);
      } else {
        PlainRoundTrip(host, port, defaultPort);
      }
  }

  lemma PlainRoundTrip(host: string, port: int, defaultPort: Option<int>)
    requires host != "" && ':' !in host && host[0] != '['
    ensures ParseLocation(host + ":" + Show(port), defaultPort) == Ok(Address(host, port)) <==> host != "./u"
  {
    NumberRoundTrip(port);
    var s := host + ":" + Show(port);
    assert s[|host|] == ':' && Find(s, ':') == |host| by {
      assert forall i :: 0 <= i < |host| ==> s[i] == host[i] && host[i] != ':';
    }
    assert s[..|host|] == host && s[|host| + 1..] == Show(port);
    assert "./u:" <= s ==> host == "./u" by {
      if "./u:" <= s { assert s[3] == ':' && s[..3] == "./u"; }
    }
    if host == "./u" {
      assert s[..4] == "./u:";
    } else {
      assert s[0] == host[0];
      assert HostAndPort(s) == Ok((host, Show(port)));
      hide ParseInt, Show;
    }
  }

  lemma BracketedHost(host: string, n: string)
    requires host != "" && forall i :: 0 <= i < |host| ==> IsIpv6Char(host[i])
    requires n != "" && (IsDigit(n[0]) ==> forall i :: 0 <= i < |n| ==> IsDigit(n[i]))
    ensures HostAndPort("[" + host + "]:" + n) == Ok((host, if IsDigit(n[0]) then n else ""))
  {
    var s := "[" + host + "]:" + n;
    var end := 1 + |host|;
    assert s[0] == '[' && s[end] == ']' && s[end + 1] == ':';
    assert forall i :: 1 <= i < end ==> s[i] == host[i - 1];
    RunIs(s, 1, IsIpv6Char, end);
    assert s[1..end] == host && s[end + 2..] == n;
    assert forall i :: end + 2 <= i < |s| ==> s[i] == n[i - end - 2];
    var stop := if IsDigit(n[0]) then |s| else end + 2;
    RunIs(s, end + 2, IsDigit, stop);
    assert s[end + 2..stop] == if IsDigit(n[0]) then n else "";
  }

  lemma BracketedRoundTrip(host: string, port: int, defaultPort: Option<int>)
    requires Plausible(Address(host, port), defaultPort) && ':' in host
    ensures ParseLocation("[" + host + "]:" + Show(port), defaultPort) == Ok(Address(host, port))
    ensures '\n' !in "[" + host + "]:" + Show(port) && host != "./u"
  {
    NumberRoundTrip(port);
    var n := Show(port);
    assert port < 0 ==> n[0] == '-';
    BracketedHost(host, n);
    assert ("[" + host + "]:" + n)[0] == '[';
    hide HostAndPort, ParseInt, Show;
  }

  // ---------------------------------------------------------------- tag lists

  predicate Free(s: string, c: char) { c !in s }

  lemma {:induction false} Pieces(o: string)
    ensures forall p :: p in SplitCommas(o) ==> Free(p, ',') && forall c :: c in p ==> c in o
    ensures SplitCommas(o)[0] == o[..Find(o, ',')]
    decreases |o|
  {
    var k := Find(o, ',');
    if k < |o| { Pieces(o[k + 1..]); }
  }

  lemma {:induction false} PieceWithout(o: string, c: char, p: string)
    requires p in SplitCommas(o) && c !in o
    ensures c !in p
  {
    Pieces(o);
  }

  /** Only the first piece can hold an at sign that stands at the front. */
  lemma LaterPieces(o: string, p: string)
    requires forall i :: 1 <= i < |o| ==> o[i] != '@'
    requires p in SplitCommas(o) && '@' in p
    ensures p == SplitCommas(o)[0]
  {
    var k := Find(o, ',');
    if k < |o| {
      var rest := o[k + 1..];
      assert '@' !in rest by {
        forall i | 0 <= i < |rest| ensures rest[i] != '@' { assert rest[i] == o[k + 1 + i]; }
      }
      if p in SplitCommas(rest) { PieceWithout(rest, '@', p); }
    }
  }

  lemma SplitFirst(a: string, b: string)
    requires Free(a, ',')
    ensures SplitCommas(a + "," + b) == [a] + SplitCommas(b)
  {
    var s := a + "," + b;
    assert forall i :: 0 <= i < |a| ==> s[i] == a[i];
    assert s[|a|] == ',' && Find(s, ',') == |a|;
    assert s[..|a|] == a && s[|a| + 1..] == b;
  }

  lemma SplitNone(a: string)
    requires Free(a, ',')
    ensures SplitCommas(a) == [a]
  {
    assert Find(a, ',') == |a|;
  }

  lemma {:induction false} SplitJoined(ts: seq<string>)
    requires ts != [] && forall t :: t in ts ==> Free(t, ',')
    ensures SplitCommas(JoinCommas(ts)) == ts
  {
    if |ts| == 1 {
      assert JoinCommas(ts) == ts[0] && Free(ts[0], ',');
      SplitNone(ts[0]);
    } else {
      SplitFirst(ts[0], JoinCommas(ts[1..]));
      SplitJoined(ts[1..]);
    }
  }

  /** Every character of a joined list is a comma or stands in one of its parts. */
  lemma {:induction false} JoinedCharacter(ts: seq<string>, c: char) returns (t: string)
    requires c in JoinCommas(ts) && c != ','
    ensures t in ts && c in t
  {
    if |ts| == 1 || c in ts[0] {
      t := ts[0];
    } else {
      t := JoinedCharacter(ts[1..], c);
    }
  }

  lemma JoinedWithout(ts: seq<string>, c: char)
    requires c != ',' && forall t :: t in ts ==> Free(t, c)
    ensures c !in JoinCommas(ts)
  {
    if c in JoinCommas(ts) { var t := JoinedCharacter(ts, c); }
  }

  lemma JoinedStart(ts: seq<string>)
    requires ts != []
    ensures ts[0] <= JoinCommas(ts)
    ensures |ts| > 1 ==> |ts[0]| < |JoinCommas(ts)| && JoinCommas(ts)[|ts[0]|] == ','
                         && JoinCommas(ts)[|ts[0]| + 1..] == JoinCommas(ts[1..])
  {}

  lemma {:induction false} StripNothing(s: string)
    requires NoSpace(s)
    ensures Strip(s) == s
  {}

  lemma TagsArePieces(o: string)
    requires NoSpace(o)
    ensures TagSet(o) == set p | p in SplitCommas(o)
  {
    Pieces(o);
    forall p | p in SplitCommas(o) ensures Strip(p) == p {
      assert forall i :: 0 <= i < |p| ==> p[i] in p;
      StripNothing(p);
    }
  }

  /** The orders in which a tag set may be printed. */
  ghost predicate OrderOf(order: seq<string>, tags: set<string>) {
    Distinct(order) && forall t :: t in tags <==> t in order
  }

  lemma SomeOrder(tags: set<string>) returns (order: seq<string>)
    ensures OrderOf(order, tags)
  {
    if tags == {} {
      order := [];
    } else {
      var t :| t in tags;
      var rest := SomeOrder(tags - {t});
      order := [t] + rest;
    }
  }

  lemma SomeOrderFrom(tags: set<string>, first: string) returns (order: seq<string>)
    requires first in tags
    ensures OrderOf(order, tags) && order[0] == first
  {
    var rest := SomeOrder(tags - {first});
    order := [first] + rest;
  }

  // -------------------------------------------------------------- round trips

  function DefaultPort(protocol: string, nsPort: int): Option<int> {
    if protocol == "PYRO" then None else Some(nsPort)
  }

  /** What the parser guarantees of its result. `o` is the object as it was written. */
  ghost predicate Parsed(u: Uri, o: string, nsPort: int) {
    && Protocol(u.protocol)
    && (u.object_ == if u.protocol == "PYROMETA" then Tags(TagSet(o)) else Name(o))
    && Shape(o, u.location != Nowhere)
    && Plausible(u.location, DefaultPort(u.protocol, nsPort))
    && (u.protocol == "PYRO" ==> u.location != Nowhere)
  }

  lemma ParseIsParsed(s: string, nsPort: int) returns (o: string)
    requires Parse(s, nsPort).Ok?
    ensures Parsed(Parse(s, nsPort).value, o, nsPort)
  {
    var (protocol, written, location) := MatchUri(s).value;
    o := written;
    var k := Find(s, ':');
    SplitShape(ChopNewline(s[k + 1..]), 0);
    ParsedIsPlausible(location, DefaultPort(protocol, nsPort));
  }

  /** The text of the object in a printed URI. */
  function Printed(u: Uri, order: seq<string>): string {
    if u.object_.Tags? then JoinCommas(order) else u.object_.name
  }

  /** When the object is split off where the printer put the location, the location alone decides. */
  lemma Reparse(u: Uri, order: seq<string>, nsPort: int)
    requires Protocol(u.protocol) && (u.object_.Tags? <==> u.protocol == "PYROMETA")
    requires Plausible(u.location, DefaultPort(u.protocol, nsPort)) && (u.protocol == "PYRO" ==> u.location != Nowhere)
    requires Shape(Printed(u, order), u.location != Nowhere)
    requires u.object_.Tags? ==> TagSet(JoinCommas(order)) == u.object_.tags
    ensures Parse(Print(u, order), nsPort) == Ok(u) <==> PrintableLocation(u.location)
  {
    var o, l := Printed(u, order), LocationString(u.location);
    LocationRoundTrip(u.location, DefaultPort(u.protocol, nsPort));
    SplitUndone(o, l);
    var rest := o + (if l == "" then "" else "@" + l);
    assert '\n' !in rest by { assert IsSpace('\n') && '\n' !in o; }
    assert Print(u, order) == u.protocol + ":" + rest;
    MatchPrinted(u.protocol, rest);
    hide SplitObject, ParseLocation, MatchUri, LocationString;
  }

  /** Printed in any order, `u` reads back as itself. */
  ghost predicate RoundTrips(u: Uri, nsPort: int) {
    forall order :: (u.object_.Tags? ==> OrderOf(order, u.object_.tags)) ==> Parse(Print(u, order), nsPort) == Ok(u)
  }

  /** A lone empty tag disappears, and an at sign may start a location, except where nothing can come before it
      or after it. */
  predicate PrintableTags(tags: set<string>, located: bool) {
    && tags != {""}
    && ( || |tags| == 1
         || (forall t :: t in tags ==> Free(t, '@'))
         || (!located && |tags| == 2 && forall t :: t in tags ==> Free(t, '@') || t == "@"))
  }

  predicate Printable(u: Uri) {
    PrintableLocation(u.location) && (u.object_.Tags? ==> PrintableTags(u.object_.tags, u.location != Nowhere))
  }

  lemma Lone(tags: set<string>, t: string)
    requires |tags| == 1 && t in tags
    ensures tags == {t}
  {
    assert |tags - {t}| == 0;
  }

  lemma {:induction false} OrderSize(order: seq<string>, tags: set<string>)
    requires OrderOf(order, tags)
    ensures |order| == |tags|
  {
    if order == [] {
      assert tags == {};
    } else {
      assert order[0] in tags;
      OrderSize(order[1..], tags - {order[0]});
    }
  }

  lemma OnlyTag(tags: set<string>, order: seq<string>, t: string)
    requires |tags| == 1 && t in tags && OrderOf(order, tags)
    ensures order == [t] && JoinCommas(order) == t
  {
    OrderSize(order, tags);
    assert t in order;
  }

  lemma OneTagShape(o: string, located: bool)
    requires Shape(o, located) && |TagSet(o)| == 1 && TagSet(o) != {""}
    ensures exists t :: t in TagSet(o) && Shape(t, located)
  {
    TagsArePieces(o);
    Pieces(o);
    var t := SplitCommas(o)[0];
    var k := Find(o, ',');
    assert t in TagSet(o) && t == o[..k];
    if t == "" {
      Lone(TagSet(o), t);
    }
  }

  lemma JoinedOrder(order: seq<string>, o: string, located: bool)
    requires Shape(o, located) && OrderOf(order, TagSet(o))
    ensures NoSpace(JoinCommas(order)) && TagSet(JoinCommas(order)) == TagSet(o) && order != []
    ensures '\n' !in JoinCommas(order)
    ensures TagSet(o) != {""} ==> JoinCommas(order) != ""
  {
    TagsArePieces(o);
    Pieces(o);
    var p := JoinCommas(order);
    assert SplitCommas(o)[0] in order;
    forall t | t in order ensures t in SplitCommas(o) { assert t in TagSet(o); }
    forall i | 0 <= i < |p| ensures !IsSpace(p[i]) {
      if p[i] != ',' { var t := JoinedCharacter(order, p[i]); }
    }
    assert IsSpace('\n');
    SplitJoined(order);
    TagsArePieces(p);
    if p == "" && |order| == 1 {
      assert order[0] == "";
    }
  }

  /** Each order of printable tags has a shape that splits again where it should. */
  lemma PrintableShape(o: string, located: bool, order: seq<string>)
    requires Shape(o, located) && OrderOf(order, TagSet(o)) && PrintableTags(TagSet(o), located)
    ensures Shape(JoinCommas(order), located)
  {
    var tags, p := TagSet(o), JoinCommas(order);
    JoinedOrder(order, o, located);
    if |tags| == 1 {
      OneTagShape(o, located);
      var t :| t in tags && Shape(t, located);
      OnlyTag(tags, order, t);
    } else if forall t :: t in tags ==> Free(t, '@') {
      JoinedWithout(order, '@');
    } else {
      OrderSize(order, tags);
      assert p == order[0] + "," + order[1];
      assert order[0] in tags && order[1] in tags;
    }
  }

  /** An order that starts with the tag that came first at the parser has the shape of the parsed object. */
  lemma SafeOrder(o: string) returns (order: seq<string>)
    requires Shape(o, true)
    ensures OrderOf(order, TagSet(o))
    ensures TagSet(o) != {""} ==> Shape(JoinCommas(order), true)
  {
    TagsArePieces(o);
    Pieces(o);
    var first := SplitCommas(o)[0];
    order := SomeOrderFrom(TagSet(o), first);
    JoinedOrder(order, o, true);
    var p := JoinCommas(order);
    JoinedStart(order);
    forall t | t in order[1..] ensures Free(t, '@') {
      assert t in order;
      if !Free(t, '@') { LaterPieces(o, t); }
    }
    JoinedWithout(order[1..], '@');
    forall i | 1 <= i < |p| ensures p[i] != '@' {
      if i < |first| {
        assert p[i] == first[i] == o[i];
      } else if i > |first| {
        assert p[i] == JoinCommas(order[1..])[i - |first| - 1];
      }
    }
  }

  /** Two chosen tags in front. */
  lemma OrderWith(tags: set<string>, a: string, b: string) returns (order: seq<string>)
    requires a in tags && b in tags && a != b
    ensures OrderOf(order, tags) && |order| == |tags| && order[0] == a && order[1] == b
    ensures a + "," + b <= JoinCommas(order)
    ensures |tags| > 2 ==> a + "," + b + "," <= JoinCommas(order)
  {
    var rest := SomeOrder(tags - {a, b});
    order := [a, b] + rest;
    assert order[1..] == [b] + rest && order[2..] == rest;
    JoinedStart(order);
    JoinedStart(order[1..]);
    OrderSize(order, tags);
  }

  lemma Indexed(s: string, c: char) returns (i: nat)
    requires c in s
    ensures i < |s| && s[i] == c
  {
    i :| 0 <= i < |s| && s[i] == c;
  }

  lemma PrintedParts(u: Uri, order: seq<string>, nsPort: int)
    requires u.protocol == "PYROMETA" && u.object_.Tags?
    requires '\n' !in JoinCommas(order) && '\n' !in LocationString(u.location)
    ensures var l := LocationString(u.location);
            Parse(Print(u, order), nsPort)
            == match SplitObject(JoinCommas(order) + (if l == "" then "" else "@" + l), 0)
               case None => Err(InvalidUri)
               case Some((o, l')) => WithLocation("PYROMETA", Tags(TagSet(o)), l', Some(nsPort))
  {
    var l := LocationString(u.location);
    var rest := JoinCommas(order) + (if l == "" then "" else "@" + l);
    assert Print(u, order) == "PYROMETA" + ":" + rest;
    MatchPrinted("PYROMETA", rest);
    hide SplitObject, MatchUri, LocationString, JoinCommas, Print;
  }

  lemma EmptyTag(u: Uri, nsPort: int)
    requires u.protocol == "PYROMETA" && u.object_ == Tags({""}) && '\n' !in LocationString(u.location)
    ensures Parse(Print(u, [""]), nsPort) != Ok(u)
  {
    PrintedParts(u, [""], nsPort);
    var l := LocationString(u.location);
    var rest := if l == "" then "" else "@" + l;
    assert JoinCommas([""]) + rest == rest;
    if SplitObject(rest, 0).Some? {
      SplitShape(rest, 0);
      var o := SplitObject(rest, 0).value.0;
      assert o[0] == '@';
      TagsArePieces(o);
      Pieces(o);
      assert SplitCommas(o)[0] in TagSet(o) && SplitCommas(o)[0] != "";
    }
  }

  lemma InteriorAtSign(u: Uri, order: seq<string>, nsPort: int, at: nat)
    requires u.protocol == "PYROMETA" && u.object_.Tags? && u.location == Nowhere
    requires NoSpace(JoinCommas(order)) && '\n' !in JoinCommas(order)
    requires 1 <= at && at + 1 < |JoinCommas(order)| && JoinCommas(order)[at] == '@'
    ensures Parse(Print(u, order), nsPort) != Ok(u)
  {
    PrintedParts(u, order, nsPort);
    var p := JoinCommas(order);
    assert p + "" == p;
    SplitTooEarly(p, at);
  }

  lemma {:induction false} UnlocatedTags(u: Uri, o: string, nsPort: int) returns (order: seq<string>)
    requires Parsed(u, o, nsPort) && u.protocol == "PYROMETA" && u.location == Nowhere
    requires |u.object_.tags| != 1 && !PrintableTags(u.object_.tags, false)
    ensures OrderOf(order, u.object_.tags) && Parse(Print(u, order), nsPort) != Ok(u)
  {
    var tags := u.object_.tags;
    var t :| t in tags && !Free(t, '@') && (|tags| == 2 ==> t != "@");
    var i := Indexed(t, '@');
    var b := Other(tags, t);
    var at;
    if |tags| == 2 && i > 0 {
      order := OrderWith(tags, t, b);
      at := i;
    } else {
      order := OrderWith(tags, b, t);
      at := |b| + 1 + i;
      assert (b + "," + t)[at] == t[i];
    }
    JoinedOrder(order, o, false);
    InteriorAtSign(u, order, nsPort, at);
  }

  lemma Other(tags: set<string>, t: string) returns (b: string)
    requires t in tags && |tags| > 1
    ensures b in tags && b != t
  {
    assert |tags - {t}| > 0;
    b :| b in tags - {t};
  }

  /** In front of a location only one tag can have an at sign. */
  lemma SpecialAndOther(o: string) returns (t: string, b: string)
    requires Shape(o, true) && |TagSet(o)| != 1 && !PrintableTags(TagSet(o), true)
    ensures t in TagSet(o) && b in TagSet(o) && !Free(t, '@') && Free(b, '@')
  {
    TagsArePieces(o);
    t :| t in TagSet(o) && !Free(t, '@');
    b := Other(TagSet(o), t);
    LaterPieces(o, t);
    if !Free(b, '@') { LaterPieces(o, b); }
  }

  lemma LocatedTags(u: Uri, o: string, nsPort: int) returns (order: seq<string>)
    requires Parsed(u, o, nsPort) && u.protocol == "PYROMETA" && u.location != Nowhere && PrintableLocation(u.location)
    requires |u.object_.tags| != 1 && !PrintableTags(u.object_.tags, true)
    ensures OrderOf(order, u.object_.tags) && Parse(Print(u, order), nsPort) != Ok(u)
  {
    var t, b := SpecialAndOther(o);
    order := OrderWith(u.object_.tags, b, t);
    var l := LocationString(u.location);
    LocationRoundTrip(u.location, Some(nsPort));
    JoinedOrder(order, o, true);
    PrintedParts(u, order, nsPort);
    hide SplitObject, JoinCommas, Parse, Print, TagSet, LocationString;
    CutTags(JoinCommas(order), l, b, t);
  }

  /** The object before an early split has no at sign left, so the tag that had one is lost. */
  lemma CutTags(joined: string, l: string, b: string, t: string)
    requires b + "," + t <= joined && NoSpace(joined) && '\n' !in joined && '\n' !in l && l != ""
    requires Free(b, '@') && !Free(t, '@')
    ensures var o := SplitObject(joined + ("@" + l), 0); o.Some? && t !in TagSet(o.value.0)
  {
    var rest, front := joined + ("@" + l), b + "," + t;
    var i := Indexed(t, '@');
    var at := |b| + 1 + i;
    assert rest[at] == joined[at] == front[at] == t[i];
    assert rest[0] == front[0] != '@';
    assert forall k :: 0 <= k < at ==> rest[k] == joined[k];
    SplitTooEarly(rest, at);
    var o := SplitObject(rest, 0).value.0;
    hide SplitObject;
    assert '@' !in o;
    assert forall k :: 0 <= k < |o| ==> o[k] == joined[k];
    TagsArePieces(o);
    if t in SplitCommas(o) { PieceWithout(o, '@', t); }
  }

  lemma TagsDecide(u: Uri, o: string, nsPort: int)
    requires Parsed(u, o, nsPort) && u.protocol == "PYROMETA"
    ensures RoundTrips(u, nsPort) <==> Printable(u)
  {
    var tags, located := u.object_.tags, u.location != Nowhere;
    LocationRoundTrip(u.location, Some(nsPort));
    if tags == {""} {
      EmptyTag(u, nsPort);
      assert OrderOf([""], tags);
    } else if !PrintableLocation(u.location) {
      var order := SafeOrder(o);
      JoinedOrder(order, o, true);
      Reparse(u, order, nsPort);
    } else if PrintableTags(tags, located) {
      forall order | OrderOf(order, tags) ensures Parse(Print(u, order), nsPort) == Ok(u) {
        PrintableShape(o, located, order);
        JoinedOrder(order, o, located);
        Reparse(u, order, nsPort);
      }
    } else if located {
      var order := LocatedTags(u, o, nsPort);
    } else {
      var order := UnlocatedTags(u, o, nsPort);
    }
  }

  /** Main result: a URI that was parsed from any string is printed to a string that parses to the same URI,
      whatever the order of its tags, if and only if its parts are printable. */
  lemma PrintThenParse(s: string, nsPort: int)
    requires Parse(s, nsPort).Ok?
    ensures var u := Parse(s, nsPort).value; RoundTrips(u, nsPort) <==> Printable(u)
  {
    var o := ParseIsParsed(s, nsPort);
    var u := Parse(s, nsPort).value;
    if u.protocol == "PYROMETA" {
      TagsDecide(u, o, nsPort);
    } else {
      Reparse(u, [], nsPort);
      forall order ensures Print(u, order) == Print(u, []) {}
    }
  }

  /** A tag that can stand in a printed list without being taken apart. */
  ghost predicate Plain(t: string) {
    NoSpace(t) && Free(t, ',') && Free(t, '@')
  }

  lemma TwoTagShape(a: string, b: string)
    requires Plain(a) && Plain(b)
    ensures Shape("@" + a + "," + b, false) && '\n' !in "@" + a + "," + b
  {
    var o := "@" + a + "," + b;
    forall i | 1 <= i < |o| ensures !IsSpace(o[i]) && o[i] != '@' {
      if i <= |a| { assert o[i] == a[i - 1]; } else if i > |a| + 1 { assert o[i] == b[i - |a| - 2]; }
    }
    assert IsSpace('\n');
  }

  lemma TwoTags(a: string, b: string)
    requires Plain(a) && Plain(b)
    ensures TagSet("@" + a + "," + b) == {"@" + a, b}
  {
    var t := "@" + a;
    TwoTagShape(a, b);
    SplitFirst(t, b);
    TagsArePieces(t + "," + b);
    hide TagSet, NoSpace;
    assert SplitCommas(b) == [b];
    assert [t, b][0] == t && [t, b][1] == b;
  }

  /** Such URIs exist: a tag with an at sign in front parses, but printed second it is taken for a location. */
  lemma AtSignInTag(a: string, b: string, nsPort: int)
    requires Plain(a) && Plain(b) && a != ""
    ensures Parse("PYROMETA" + ":" + ("@" + a + "," + b), nsPort) == Ok(Uri("PYROMETA", Tags({"@" + a, b}), Nowhere))
    ensures !RoundTrips(Uri("PYROMETA", Tags({"@" + a, b}), Nowhere), nsPort)
  {
    var o := "@" + a + "," + b;
    TwoTagShape(a, b);
    TwoTags(a, b);
    SplitNowhere(o, 0);
    MatchPrinted("PYROMETA", o);
    hide TagSet, SplitObject, MatchUri, NoSpace;
    PrintThenParse("PYROMETA" + ":" + o, nsPort);
    NotPrintable("@" + a, b);
  }

  lemma NotPrintable(t: string, b: string)
    requires t != b && !Free(t, '@') && t != "@"
    ensures !PrintableTags({t, b}, false)
  {
    assert t in {t, b} && b in {t, b} && |{t, b}| == 2;
  }

  // ------------------------------------------------- what is read, and what is not

  /** The same letter, in either case. */
  predicate SameLetter(a: char, b: char) {
    IsLetter(a) && IsLetter(b) && (a == b || a as int == b as int + 32 || b as int == a as int + 32)
  }

  lemma {:induction false} UpperSame(p: string, q: string)
    requires |p| == |q| && forall i :: 0 <= i < |p| ==> SameLetter(p[i], q[i])
    ensures UpperAll(p) == UpperAll(q)
  {
    if p != [] {
      assert SameLetter(p[0], q[0]);
      UpperSame(p[1..], q[1..]);
    }
  }

  /** The protocol may be written in any case. */
  lemma CaseDoesNotMatter(p: string, q: string, rest: string, nsPort: int)
    requires |p| == |q| && forall i :: 0 <= i < |p| ==> SameLetter(p[i], q[i])
    ensures Parse(p + ":" + rest, nsPort) == Parse(q + ":" + rest, nsPort)
  {
    ProtocolPart(p, rest);
    ProtocolPart(q, rest);
    UpperSame(p, q);
    hide SplitObject, MatchUri;
  }

  /** A host as it may stand without brackets. */
  predicate PlainHost(h: string) { h != "" && ':' !in h && '\n' !in h && h[0] != '[' }

  lemma HostAlone(h: string, port: Option<int>)
    requires PlainHost(h)
    ensures ParseLocation(h, port) == match port case Some(n) => Ok(Address(h, n)) case None => Err(InvalidPort)
  {
    assert Find(h, ':') == |h| && h[..|h|] == h;
    SocketHasColon(h);
  }

  lemma SocketHasColon(h: string)
    ensures "./u:" <= h ==> ':' in h
  {
    if "./u:" <= h { assert h[3] == ':'; }
  }

  lemma BracketsAlone(h: string, port: Option<int>)
    requires h != "" && forall i :: 0 <= i < |h| ==> IsIpv6Char(h[i])
    ensures ParseLocation("[" + h + "]", port) == match port case Some(n) => Ok(Address(h, n)) case None => Err(InvalidPort)
    ensures '\n' !in "[" + h + "]"
  {
    var s := "[" + h + "]";
    assert s[0] == '[' && s[1] == h[0] && s[1 + |h|] == ']';
    assert forall i :: 1 <= i < 1 + |h| ==> s[i] == h[i - 1];
    RunIs(s, 1, IsIpv6Char, 1 + |h|);
    assert s[1..1 + |h|] == h;
  }

  /** Where no port is given, that of the name server is meant; an object's own URI must give one. */
  lemma DefaultPorts(o: string, h: string, nsPort: int)
    requires Shape(o, true) && PlainHost(h)
    ensures Parse("PYRONAME" + ":" + (o + "@" + h), nsPort) == Ok(Uri("PYRONAME", Name(o), Address(h, nsPort)))
    ensures Parse("PYROMETA" + ":" + (o + "@" + h), nsPort) == Ok(Uri("PYROMETA", Tags(TagSet(o)), Address(h, nsPort)))
    ensures Parse("PYRO" + ":" + (o + "@" + h), nsPort) == Err(InvalidPort)
  {
    SplitUndone(o, h);
    assert o + ("@" + h) == o + "@" + h;
    assert '\n' !in o + "@" + h by { assert IsSpace('\n') && '\n' !in o; }
    MatchPrinted("PYRONAME", o + "@" + h);
    MatchPrinted("PYROMETA", o + "@" + h);
    MatchPrinted("PYRO", o + "@" + h);
    HostAlone(h, Some(nsPort));
    HostAlone(h, None);
    hide SplitObject, MatchUri, ParseLocation, TagSet;
  }

  /** Without a location only a name or tags can be meant. */
  lemma NoLocation(o: string, nsPort: int)
    requires Shape(o, false)
    ensures Parse("PYRONAME" + ":" + o, nsPort) == Ok(Uri("PYRONAME", Name(o), Nowhere))
    ensures Parse("PYROMETA" + ":" + o, nsPort) == Ok(Uri("PYROMETA", Tags(TagSet(o)), Nowhere))
    ensures Parse("PYRO" + ":" + o, nsPort) == Err(InvalidUri)
  {
    SplitUndone(o, "");
    assert o + "" == o;
    assert '\n' !in o by { assert IsSpace('\n'); }
    MatchPrinted("PYRONAME", o);
    MatchPrinted("PYROMETA", o);
    MatchPrinted("PYRO", o);
    hide SplitObject, MatchUri, TagSet;
  }

  /** Locations that are refused: a socket without a name or with a colon in it, and doubled brackets. */
  lemma BadLocations(rest: string, port: Option<int>)
    ensures ParseLocation("./u:" + rest, port) ==
            if rest == "" || ':' in rest then Err(InvalidLocation) else Ok(UnixSocket(rest))
    ensures ParseLocation("[[" + rest, port) == Err(InvalidIpv6)
  {
    var s := "./u:" + rest;
    assert s[..4] == "./u:" && s[4..] == rest;
    var t := "[[" + rest;
    assert t[0] == '[' && t[1] == '[';
  }

  /** Any other protocol that begins like one is refused. */
  lemma UnknownProtocol(p: string, o: string, nsPort: int)
    requires |p| >= 4 && p[..4] == "PYRO" && !Protocol(p) && Shape(o, false)
    requires forall i :: 0 <= i < |p| ==> 'A' <= p[i] <= 'Z'
    ensures Parse(p + ":" + o, nsPort) == Err(InvalidProtocol)
  {
    UpperUnchanged(p);
    ProtocolPart(p, o);
    SplitNowhere(o, 0);
    assert ChopNewline(o) == o by { assert IsSpace('\n'); }
    hide SplitObject, MatchUri;
  }
}
