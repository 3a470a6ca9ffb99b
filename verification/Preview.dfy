/**
 Preview addresses (`src/preview.rs`, `src/docker_net.rs`): the template, the printer and the parser
 around it. The `url` crate's part of checking a template is a predicate, `opens`.
 */
module Preview {
  import opened Wrappers
  import opened Strings

  const I64_MAX: nat := 0x7FFF_FFFF_FFFF_FFFF
  const U16_MAX: nat := 0xFFFF

  /** Parts written with `c` between them. */
  function Joined(parts: seq<string>, c: char): string {
    if parts == [] then "" else if |parts| == 1 then parts[0] else parts[0] + [c] + Joined(parts[1..], c)
  }

  type Octet = n: nat | n < 256

  datatype Ip = Ip(a: Octet, b: Octet, c: Octet, d: Octet) {
    function Value(): nat {
      a * 0x100_0000 + b * 0x1_0000 + c * 0x100 + d
    }

    function Written(): string {
      Joined([Decimal(a), Decimal(b), Decimal(c), Decimal(d)], '.')
    }
  }

  datatype PodHost = Localhost | Container(ip: Ip)

  // ----- Docker addresses -----

  const POOL_BASE := Ip(172, 20, 0, 0)

  /** The address has the pool's first 14 bits, so the last 18 don't matter. */
  predicate InDockerPool(ip: Ip) {
    ip.Value() / 0x4_0000 == POOL_BASE.Value() / 0x4_0000
  }

  /** `s` cut at every `c`. */
  function SplitAt(s: string, c: char): (parts: seq<string>)
    decreases |s|
  {
    match SplitOnce(s, [c])
    case None => [s]
    case Some((first, rest)) => [first] + SplitAt(rest, c)
  }

  /** An IPv4 literal: four numbers up to 255. */
  function ParseIp(text: string): Option<Ip> {
    var parts := SplitAt(text, '.');
    if |parts| != 4 then None
    else match (ParseUpTo(parts[0], 255), ParseUpTo(parts[1], 255), ParseUpTo(parts[2], 255), ParseUpTo(parts[3], 255))
      case (Some(a), Some(b), Some(c), Some(d)) => Some(Ip(a, b, c, d))
      case _ => None
  }

  function ContainerAddress(host: string): Option<Ip> {
    var ip := ParseIp(host);
    if ip.Some? && InDockerPool(ip.value) then ip else None
  }

  // ----- The `{port}` slot -----

  function PortSlot(host: PodHost, port: nat): string {
    match host
    case Localhost => Decimal(port)
    case Container(ip) =>
      Joined([Decimal(ip.a), Decimal(ip.b), Decimal(ip.c), Decimal(ip.d), Decimal(port)], '-')
  }

  function ParsePortSlot(slot: string): Option<(PodHost, nat)> {
    var parts := SplitAt(slot, '-');
    if exists p | p in parts :: !IsNumber(p) then None
    else
      var host :=
        if |parts| == 1 then Some(Localhost)
        else if |parts| == 5 then
          var address := Joined(parts[..4], '.');
          match ContainerAddress(address)
          case Some(ip) => if ip.Written() == address then Some(Container(ip)) else None
          case None => None
        else None;
      match (host, ParseUpTo(parts[|parts| - 1], U16_MAX))
      case (Some(h), Some(port)) => if port != 0 then Some((h, port)) else None
      case _ => None
  }

  // ----- The template -----

  const PORT := "{port}"
  const CONVERSATION := "{conversation}"

  datatype ParseError =
    | NeedsScheme | WrongScheme | HasPath | WrongPlaceholders | HasUser | HasBrackets | NotAscii | HasWhitespace
    | HasEscape | PlaceholderInPort | ManyPorts | WrongPort | NotOpenable | OnlyDigitsBetween

  predicate HasAny(s: string, cs: string) {
    exists c | c in s :: c in cs
  }

  predicate IsAscii(s: string) {
    forall c | c in s :: c as int < 128
  }

  const WHITESPACE: string := ['\t', '\n', 11 as char, 12 as char, '\r', ' ']

  /** `matches(p).count() == 1`. */
  predicate OccursOnce(s: string, p: string) {
    match SplitOnce(s, p)
    case Some((_, rest)) => !Contains(rest, p)
    case None => false
  }

  function Replace(s: string, p: string, with: string): string
    requires p != ""
    decreases |s|
  {
    match SplitOnce(s, p)
    case Some((before, rest)) => before + with + Replace(rest, p, with)
    case None => s
  }

  function DefaultPort(scheme: string): nat {
    if scheme == "https" then 443 else 80
  }

  /** An authority as a browser sends it back: a default or empty port dropped, any other in plain decimal. */
  function BrowserAuthority(scheme: string, authority: string): Result<string, ParseError> {
    if '@' in authority then Err(HasUser)
    else if HasAny(authority, "[]") then Err(HasBrackets)
    else if !IsAscii(authority) then Err(NotAscii)
    else if HasAny(authority, WHITESPACE) then Err(HasWhitespace)
    else if HasAny(authority, "%\\") then Err(HasEscape)
    else match RSplitOnce(authority, ":")
      case None => Ok(authority)
      case Some((host, port)) =>
        if '{' in port then Err(PlaceholderInPort)
        else if ':' in host then Err(ManyPorts)
        else if port == "" then Ok(host)
        else match ParseUpTo(port, U16_MAX)
          case None => Err(WrongPort)
          case Some(number) =>
            if number == 0 then Err(WrongPort)
            else if number == DefaultPort(scheme) then Ok(host)
            else Ok(host + ":" + Decimal(number))
  }

  datatype Template = Template(scheme: string, before: string, between: string, after: string, portFirst: bool) {

    /** What `url_for` puts after the scheme. */
    function Authority(conversation: nat, host: PodHost, port: nat): string {
      var slot := PortSlot(host, port);
      before + (if portFirst then slot + between + Decimal(conversation) else Decimal(conversation) + between + slot)
          + after
    }

    function UrlFor(conversation: nat, host: PodHost, port: nat): string {
      scheme + "://" + Authority(conversation, host, port)
    }

    /** The conversation, host in its pod, and port a `Host` header names. */
    function MatchHost(host: string): Option<(nat, PodHost, nat)> {
      match StripPrefix(ToLower(host), before)
      case None => None
      case Some(rest) =>
        match StripSuffix(rest, after)
        case None => None
        case Some(middle) =>
          match if portFirst then RSplitOnce(middle, between) else SplitOnce(middle, between)
          case None => None
          case Some((first, second)) =>
            var (slot, conversation) := if portFirst then (first, second) else (second, first);
            match (ParseUpTo(conversation, I64_MAX), ParsePortSlot(slot))
            case (Some(id), Some((podHost, port))) => if id > 0 then Some((id, podHost, port)) else None
            case _ => None
    }

    /** `MatchHost` for the listener's own `Host` header, which a proxy may write with the default port. */
    function MatchRequestHost(host: string): Option<(nat, PodHost, nat)> {
      MatchHost(StripSuffix(host, DefaultSuffix()).GetOr(host))
    }

    function DefaultSuffix(): string {
      if scheme == "https" then ":443" else ":80"
    }

    /** What every accepted template is. */
    predicate WellFormed() {
      && (scheme == "http" || scheme == "https")
      && IsLower(before) && IsLower(between) && IsLower(after)
      && !AllDigits(between)
      && ':' !in before && ':' !in between
      && StripSuffix(after, DefaultSuffix()).None?
    }
  }

  predicate IsLower(s: string) {
    forall i | 0 <= i < |s| :: !('A' <= s[i] <= 'Z')
  }

  /** `parse`. That `SplitOnce` gives a value where it is asked for one is that the source's `expect`s never fire. */
  function Parse(opens: (string, string) -> bool, template: string): Result<Template, ParseError> {
    match SplitOnce(template, "://")
    case None => Err(NeedsScheme)
    case Some((scheme, written)) =>
      if scheme != "http" && scheme != "https" then Err(WrongScheme)
      else if HasAny(written, "/?#") then Err(HasPath)
      else
        var lower := ToLower(written);
        if !(OccursOnce(lower, PORT) && OccursOnce(lower, CONVERSATION)) then Err(WrongPlaceholders)
        else match BrowserAuthority(scheme, lower)
          case Err(e) => Err(e)
          case Ok(authority) =>
            if !opens(scheme, Replace(Replace(authority, PORT, "3000"), CONVERSATION, "1")) then Err(NotOpenable)
            else
              PlaceholdersStay(scheme, lower, authority, PORT);
              PlaceholdersStay(scheme, lower, authority, CONVERSATION);
              Cut(scheme, authority)
  }

  /** An authority cut at its two placeholders. */
  function Cut(scheme: string, authority: string): Result<Template, ParseError>
    requires FindFrom(authority, PORT, 0).Some? && FindFrom(authority, CONVERSATION, 0).Some?
  {
    var portFirst := FindFrom(authority, PORT, 0).value < FindFrom(authority, CONVERSATION, 0).value;
    var (first, second) := if portFirst then (PORT, CONVERSATION) else (CONVERSATION, PORT);
    PlaceholdersDiffer(authority, FindFrom(authority, PORT, 0).value);
    SecondIsAfterFirst(authority, first, second);
    var (before, rest) := SplitOnce(authority, first).value;
    var (between, after) := SplitOnce(rest, second).value;
    if AllDigits(between) then Err(OnlyDigitsBetween)
    else Ok(Template(scheme, before, between, after, portFirst))
  }

  // ----- The `expect`s in `parse` -----

  predicate IsPlaceholder(p: string) {
    p == PORT || p == CONVERSATION
  }

  lemma PlaceholderChars(p: string)
    requires IsPlaceholder(p)
    ensures |p| >= 6 && p[0] == '{' && ':' !in p && forall i | 0 < i < |p| :: p[i] != '{'
  {
  }

  lemma OccursChars(s: string, p: string, at: nat)
    ensures OccursAt(s, p, at) ==> forall j | at <= j < at + |p| :: s[j] == p[j - at]
  {
    if OccursAt(s, p, at) {
      forall j | at <= j < at + |p| ensures s[j] == p[j - at] {
        assert s[at..at + |p|][j - at] == s[j];
      }
    }
  }

  /** An occurrence of text without `c` in it lies on one side of any `c`. */
  lemma OnOneSide(s: string, p: string, at: nat, colon: nat)
    requires OccursAt(s, p, at) && colon < |s| && s[colon] !in p
    ensures at + |p| <= colon || colon < at
  {
    OccursChars(s, p, at);
  }

  lemma InTail(s: string, from: nat, c: char)
    requires from <= |s| && c !in s[from..]
    ensures forall i | from <= i < |s| :: s[i] != c
  {
    forall i | from <= i < |s| ensures s[i] != c {
      assert s[from..][i - from] == s[i];
    }
  }

  lemma BrowserKeepsHost(scheme: string, lower: string, authority: string)
    requires BrowserAuthority(scheme, lower) == Ok(authority)
    ensures match RSplitOnce(lower, ":")
            case Some((host, port)) => host <= authority && host + ":" + port == lower && '{' !in port
            case None => authority == lower
  {
  }

  lemma OccursInPrefix(s: string, p: string, at: nat, host: string, authority: string)
    requires OccursAt(s, p, at) && at + |p| <= |host| && host <= s && host <= authority
    ensures OccursAt(authority, p, at)
  {
    assert authority[at..at + |p|] == host[at..at + |p|] == s[at..at + |p|];
  }

  /** Dropping or rewriting a port leaves each placeholder where it was. */
  lemma PlaceholdersStay(scheme: string, lower: string, authority: string, p: string)
    requires IsPlaceholder(p) && OccursOnce(lower, p) && BrowserAuthority(scheme, lower) == Ok(authority)
    ensures FindFrom(authority, p, 0).Some?
  {
    hide IsPlaceholder;
    hide BrowserAuthority;
    PlaceholderChars(p);
    var at := FindFrom(lower, p, 0).value;
    OccursChars(lower, p, at);
    assert lower[at] == '{';
    BrowserKeepsHost(scheme, lower, authority);
    match RSplitOnce(lower, ":")
    case None =>
    case Some((host, port)) =>
      assert lower[|host|] == ':' && lower[|host| + 1..] == port;
      OnOneSide(lower, p, at, |host|);
      InTail(lower, |host| + 1, '{');
      OccursInPrefix(lower, p, at, host, authority);
  }

  lemma PlaceholdersDiffer(authority: string, at: nat)
    ensures !(OccursAt(authority, PORT, at) && OccursAt(authority, CONVERSATION, at))
  {
    OccursChars(authority, PORT, at);
    OccursChars(authority, CONVERSATION, at);
    assert PORT[1] == 'p' && CONVERSATION[1] == 'c';
  }

  lemma PlaceholdersDontOverlap(s: string, first: string, i: nat, second: string, j: nat)
    requires IsPlaceholder(first) && IsPlaceholder(second) && OccursAt(s, first, i) && OccursAt(s, second, j) && i < j
    ensures i + |first| <= j
  {
    hide IsPlaceholder;
    PlaceholderChars(first);
    PlaceholderChars(second);
    OccursChars(s, first, i);
    OccursChars(s, second, j);
    assert s[j] == '{';
  }

  lemma SecondIsAfterFirst(authority: string, first: string, second: string)
    requires IsPlaceholder(first) && IsPlaceholder(second)
    requires FindFrom(authority, first, 0).Some? && FindFrom(authority, second, 0).Some?
    requires FindFrom(authority, first, 0).value < FindFrom(authority, second, 0).value
    ensures SplitOnce(SplitOnce(authority, first).value.1, second).Some?
  {
    hide OccursAt;
    hide IsPlaceholder;
    var i, j := FindFrom(authority, first, 0).value, FindFrom(authority, second, 0).value;
    PlaceholdersDontOverlap(authority, first, i, second, j);
    OccursInRest(authority, second, j, i + |first|);
  }

  lemma OccursInRest(s: string, p: string, at: nat, from: nat)
    requires OccursAt(s, p, at) && from <= at
    ensures OccursAt(s[from..], p, at - from)
  {
    var rest := s[from..];
    assert rest[at - from..at - from + |p|] == s[at..at + |p|];
  }

  // ----- What an accepted template is -----

  /** No colon, or only before the digits of a port that is not the scheme's default. */
  predicate PortIsKept(scheme: string, authority: string) {
    forall i | 0 <= i < |authority| && authority[i] == ':' ::
      AllDigits(authority[i + 1..]) && authority[i + 1..] != Decimal(DefaultPort(scheme))
  }

  lemma NoneToSplitAt(s: string)
    requires RSplitOnce(s, ":").None?
    ensures ':' !in s
  {
    forall i | 0 <= i < |s| ensures s[i] != ':' {
      assert !OccursAt(s, ":", i);
      assert s[i..i + 1] == [s[i]];
    }
  }

  lemma BrowserAuthorityIsKept(scheme: string, lower: string, authority: string)
    requires BrowserAuthority(scheme, lower) == Ok(authority) && IsLower(lower)
    ensures PortIsKept(scheme, authority) && IsLower(authority)
  {
    match RSplitOnce(lower, ":")
    case None =>
      NoneToSplitAt(lower);
      NoColonIsKept(scheme, lower);
    case Some((host, port)) =>
      assert IsLower(host);
      NoColonIsKept(scheme, host);
      if port != "" {
        var number := ParseUpTo(port, U16_MAX).value;
        if number != DefaultPort(scheme) {
          NewPortIsKept(scheme, host, number);
        }
      }
  }

  lemma NoColonIsKept(scheme: string, host: string)
    requires ':' !in host
    ensures PortIsKept(scheme, host)
  {
  }

  lemma NewPortIsKept(scheme: string, host: string, number: nat)
    requires ':' !in host && number != DefaultPort(scheme)
    ensures PortIsKept(scheme, host + ":" + Decimal(number))
    ensures IsLower(host) ==> IsLower(host + ":" + Decimal(number))
  {
    hide Decimal;
    hide ValueOf;
    var digits := Decimal(number);
    var authority := host + ":" + digits;
    DecimalReadsBack(number);
    DecimalReadsBack(DefaultPort(scheme));
    assert authority[|host| + 1..] == digits;
    forall i | 0 <= i < |authority| ensures authority[i] == ':' <==> i == |host| {
      assert authority[i] == if i < |host| then host[i] else if i == |host| then ':' else digits[i - |host| - 1];
    }
  }

  lemma LowerIsLower(s: string)
    ensures IsLower(ToLower(s))
  {
  }

  lemma LowerKeepsLower(s: string)
    requires IsLower(s)
    ensures ToLower(s) == s
  {
  }

  /** The two parts before a placeholder hold no colon, since only digits follow one. */
  lemma NoColonBefore(scheme: string, authority: string, at: nat, i: nat)
    requires PortIsKept(scheme, authority) && i < at < |authority| && authority[at] == '{'
    ensures authority[i] != ':'
  {
    assert authority[i + 1..][at - i - 1] == '{';
  }

  lemma NoDefaultSuffix(scheme: string, authority: string, after: string)
    requires PortIsKept(scheme, authority) && |after| <= |authority| && authority[|authority| - |after|..] == after
    ensures StripSuffix(after, if scheme == "https" then ":443" else ":80").None?
  {
    var suffix := if scheme == "https" then ":443" else ":80";
    if |suffix| <= |after| && after[|after| - |suffix|..] == suffix {
      var i := |authority| - |suffix|;
      assert authority[i..] == suffix;
      assert authority[i] == ':' && authority[i + 1..] == suffix[1..];
      DefaultDecimals();
      assert false;
    }
  }

  lemma DefaultDecimals()
    ensures Decimal(80) == "80" && Decimal(443) == "443"
  {
    assert Decimal(44) == "44";
  }

  lemma LowerParts(a: string, b: string)
    ensures IsLower(a + b) <==> IsLower(a) && IsLower(b)
  {
    assert forall i | 0 <= i < |a| :: (a + b)[i] == a[i];
    assert forall i | 0 <= i < |b| :: (a + b)[|a| + i] == b[i];
  }

  lemma NoColonInFront(scheme: string, front: string, rest: string)
    requires PortIsKept(scheme, front + rest) && rest != "" && rest[0] == '{'
    ensures ':' !in front
  {
    forall i | 0 <= i < |front| ensures front[i] != ':' {
      NoColonBefore(scheme, front + rest, |front|, i);
      assert (front + rest)[i] == front[i];
    }
  }

  lemma NotInParts(a: string, b: string, c: char)
    requires c !in a + b
    ensures c !in a && c !in b
  {
    assert forall i | 0 <= i < |a| :: (a + b)[i] == a[i];
    assert forall i | 0 <= i < |b| :: (a + b)[|a| + i] == b[i];
  }

  /** Cutting a lower-case authority with one kept port at two placeholders leaves well-formed parts. */
  lemma PartsAreWellFormed(scheme: string, before: string, first: string, between: string, second: string,
                           after: string)
    requires IsPlaceholder(second)
    requires PortIsKept(scheme, before + first + between + second + after)
             && IsLower(before + first + between + second + after)
    ensures IsLower(before) && IsLower(between) && IsLower(after)
    ensures ':' !in before && ':' !in between
    ensures StripSuffix(after, if scheme == "https" then ":443" else ":80").None?
  {
    hide IsLower;
    hide PortIsKept;
    var front, authority := before + first + between, before + first + between + second + after;
    LowerParts(before, first);
    LowerParts(before + first, between);
    LowerParts(front, second);
    LowerParts(front + second, after);
    PlaceholderChars(second);
    assert authority == front + (second + after);
    NoColonInFront(scheme, front, second + after);
    NotInParts(before + first, between, ':');
    NotInParts(before, first, ':');
    assert authority[|authority| - |after|..] == after;
    NoDefaultSuffix(scheme, authority, after);
  }

  lemma SplitIs(s: string, p: string)
    ensures match SplitOnce(s, p)
            case Some((before, rest)) => s == before + p + rest
            case None => true
  {
  }

  lemma CutIsWellFormed(scheme: string, authority: string)
    requires scheme == "http" || scheme == "https"
    requires FindFrom(authority, PORT, 0).Some? && FindFrom(authority, CONVERSATION, 0).Some?
    requires PortIsKept(scheme, authority) && IsLower(authority)
    ensures Cut(scheme, authority).Ok? ==> Cut(scheme, authority).value.WellFormed()
  {
    hide SplitOnce;
    hide FindFrom;
    hide PortIsKept;
    hide IsLower;
    var portFirst := FindFrom(authority, PORT, 0).value < FindFrom(authority, CONVERSATION, 0).value;
    var (first, second) := if portFirst then (PORT, CONVERSATION) else (CONVERSATION, PORT);
    PlaceholdersDiffer(authority, FindFrom(authority, PORT, 0).value);
    SplitFound(authority, first);
    SecondIsAfterFirst(authority, first, second);
    var (before, rest) := SplitOnce(authority, first).value;
    var (between, after) := SplitOnce(rest, second).value;
    SplitIs(authority, first);
    SplitIs(rest, second);
    assert before + first + (between + second + after) == before + first + between + second + after;
    PartsAreWellFormed(scheme, before, first, between, second, after);
  }

  /** Every template `parse` accepts is well-formed. */
  lemma AcceptedIsWellFormed(opens: (string, string) -> bool, template: string)
    ensures Parse(opens, template).Ok? ==> Parse(opens, template).value.WellFormed()
  {
    hide BrowserAuthority;
    hide OccursOnce;
    hide SplitOnce;
    hide FindFrom;
    hide PortIsKept;
    hide Replace;
    hide ToLower;
    hide Cut;
    hide Template.WellFormed;
    match SplitOnce(template, "://")
    case None =>
    case Some((scheme, written)) =>
      if Parse(opens, template).Ok? {
        var lower := ToLower(written);
        LowerIsLower(written);
        var authority := BrowserAuthority(scheme, lower).value;
        BrowserAuthorityIsKept(scheme, lower, authority);
        PlaceholdersStay(scheme, lower, authority, PORT);
        PlaceholdersStay(scheme, lower, authority, CONVERSATION);
        CutIsWellFormed(scheme, authority);
      }
  }

  lemma SplitFound(s: string, p: string)
    requires FindFrom(s, p, 0).Some?
    ensures SplitOnce(s, p).Some?
  {
  }

  // ----- Reading a slot back -----

  lemma SplitAtJoin(first: string, c: char, rest: string)
    requires c !in first
    ensures SplitAt(first + [c] + rest, c) == [first] + SplitAt(rest, c)
  {
    var s := first + [c] + rest;
    assert s[|first|..|first| + 1] == [c] && OccursAt(s, [c], |first|);
    forall k | 0 <= k < |first| ensures !OccursAt(s, [c], k) {
      OccursChars(s, [c], k);
      assert s[k] == first[k];
    }
    assert s[..|first|] == first && s[|first| + 1..] == rest;
  }

  lemma SplitAtWhole(s: string, c: char)
    requires c !in s
    ensures SplitAt(s, c) == [s]
  {
    forall k: nat ensures !OccursAt(s, [c], k) {
      OccursChars(s, [c], k);
      assert k < |s| ==> s[k] != c;
    }
  }

  /** Parts without `c`, joined by it, are what cutting there gives back. */
  lemma {:induction false} JoinedSplits(parts: seq<string>, c: char)
    requires parts != [] && forall p | p in parts :: c !in p
    ensures SplitAt(Joined(parts, c), c) == parts
  {
    hide SplitAt;
    if |parts| == 1 {
      assert parts == [parts[0]];
      SplitAtWhole(parts[0], c);
    } else {
      assert forall p | p in parts[1..] :: p in parts;
      JoinedSplits(parts[1..], c);
      SplitAtJoin(parts[0], c, Joined(parts[1..], c));
      assert [parts[0]] + parts[1..] == parts;
    }
  }

  lemma NumbersHoldNo(parts: seq<string>, c: char)
    requires !IsDigit(c) && forall p | p in parts :: IsNumber(p)
    ensures forall p | p in parts :: c !in p
  {
  }

  lemma IpReadsBack(ip: Ip)
    ensures ParseIp(ip.Written()) == Some(ip)
  {
    var parts := [Decimal(ip.a), Decimal(ip.b), Decimal(ip.c), Decimal(ip.d)];
    NumbersHoldNo(parts, '.');
    JoinedSplits(parts, '.');
    ParseDecimal(ip.a, 255);
    ParseDecimal(ip.b, 255);
    ParseDecimal(ip.c, 255);
    ParseDecimal(ip.d, 255);
  }

  /** The hosts a preview can show: the pod's localhost and the containers in its range. */
  predicate InPod(host: PodHost) {
    host.Localhost? || InDockerPool(host.ip)
  }

  lemma SlotReadsBack(host: PodHost, port: nat)
    requires InPod(host) && 0 < port <= U16_MAX
    ensures ParsePortSlot(PortSlot(host, port)) == Some((host, port))
  {
    hide ParseIp;
    hide InDockerPool;
    ParseDecimal(port, U16_MAX);
    match host
    case Localhost =>
      NumbersHoldNo([Decimal(port)], '-');
      SplitAtWhole(Decimal(port), '-');
    case Container(ip) =>
      var address := [Decimal(ip.a), Decimal(ip.b), Decimal(ip.c), Decimal(ip.d)];
      var parts := address + [Decimal(port)];
      assert parts == [Decimal(ip.a), Decimal(ip.b), Decimal(ip.c), Decimal(ip.d), Decimal(port)];
      NumbersHoldNo(parts, '-');
      JoinedSplits(parts, '-');
      assert parts[..4] == address;
      IpReadsBack(ip);
  }

  /** What a slot reads as is in the pod and in range. */
  lemma SlotIsInPod(slot: string)
    ensures match ParsePortSlot(slot)
            case Some((host, port)) => InPod(host) && 0 < port <= U16_MAX
            case None => true
  {
  }

  // ----- The separator -----

  lemma LastNonDigit(s: string) returns (last: nat)
    requires !AllDigits(s)
    ensures last < |s| && !IsDigit(s[last]) && forall k | last < k < |s| :: IsDigit(s[k])
  {
    last := |s| - 1;
    while IsDigit(s[last])
      invariant last < |s| && forall k | last < k < |s| :: IsDigit(s[k])
      decreases last
    {
      last := last - 1;
    }
  }

  lemma FirstNonDigit(s: string) returns (first: nat)
    requires !AllDigits(s)
    ensures first < |s| && !IsDigit(s[first]) && forall k | 0 <= k < first :: IsDigit(s[k])
  {
    first := 0;
    while IsDigit(s[first])
      invariant first < |s| && forall k | 0 <= k < first :: IsDigit(s[k])
      decreases |s| - first
    {
      first := first + 1;
    }
  }

  /** A separator with a non-digit does not recur shifted into the digits after it. */
  lemma LastSeparator(slot: string, between: string, digits: string)
    requires !AllDigits(between) && AllDigits(digits)
    ensures RSplitOnce(slot + between + digits, between) == Some((slot, digits))
  {
    var s := slot + between + digits;
    var last := LastNonDigit(between);
    assert s[|slot|..|slot| + |between|] == between;
    assert OccursAt(s, between, |slot|);
    forall at | |slot| < at <= |s| ensures !OccursAt(s, between, at) {
      OccursChars(s, between, at);
      if at + |between| <= |s| {
        var j := at + last;
        assert s[j] == if j < |slot| + |between| then between[j - |slot|] else digits[j - |slot| - |between|];
      }
    }
    assert s[..|slot|] == slot && s[|slot| + |between|..] == digits;
  }

  /** Nor does it occur shifted into the digits before it. */
  lemma FirstSeparator(digits: string, between: string, slot: string)
    requires !AllDigits(between) && AllDigits(digits)
    ensures SplitOnce(digits + between + slot, between) == Some((digits, slot))
  {
    var s := digits + between + slot;
    var first := FirstNonDigit(between);
    assert s[|digits|..|digits| + |between|] == between;
    assert OccursAt(s, between, |digits|);
    forall at | 0 <= at < |digits| ensures !OccursAt(s, between, at) {
      OccursChars(s, between, at);
      var j := at + first;
      assert s[j] == if j < |digits| then digits[j] else between[j - |digits|];
    }
    assert s[..|digits|] == digits && s[|digits| + |between|..] == slot;
  }

  // ----- The round trip -----

  lemma {:induction false} JoinedIsLower(parts: seq<string>, c: char)
    requires !('A' <= c <= 'Z') && forall p | p in parts :: IsNumber(p)
    ensures IsLower(Joined(parts, c))
  {
    if parts != [] {
      assert parts[0] in parts;
      DigitsAreLower(parts[0]);
    }
    if |parts| > 1 {
      JoinedIsLower(parts[1..], c);
      LowerParts(parts[0] + [c], Joined(parts[1..], c));
      LowerParts(parts[0], [c]);
    }
  }

  lemma DigitsAreLower(s: string)
    requires AllDigits(s)
    ensures IsLower(s)
  {
  }

  lemma SlotIsLower(host: PodHost, port: nat)
    ensures IsLower(PortSlot(host, port))
  {
    match host
    case Localhost =>
    case Container(ip) =>
      JoinedIsLower([Decimal(ip.a), Decimal(ip.b), Decimal(ip.c), Decimal(ip.d), Decimal(port)], '-');
  }

  lemma AuthorityIsLower(t: Template, conversation: nat, host: PodHost, port: nat)
    requires t.WellFormed()
    ensures ToLower(t.Authority(conversation, host, port)) == t.Authority(conversation, host, port)
  {
    hide ToLower;
    hide PortSlot;
    hide Decimal;
    var slot, number := PortSlot(host, port), Decimal(conversation);
    SlotIsLower(host, port);
    assert IsLower(number);
    var (first, second) := if t.portFirst then (slot, number) else (number, slot);
    LowerParts(first, t.between);
    LowerParts(first + t.between, second);
    LowerParts(t.before, first + t.between + second);
    LowerParts(t.before + (first + t.between + second), t.after);
    LowerKeepsLower(t.Authority(conversation, host, port));
  }

  /** Every triple an address is printed for. */
  predicate Printable(conversation: nat, host: PodHost, port: nat) {
    0 < conversation <= 0x7FFF_FFFF_FFFF_FFFF && InPod(host) && 0 < port <= 65535
  }

  lemma WellFormedMatches(t: Template, conversation: nat, host: PodHost, port: nat)
    requires t.WellFormed() && Printable(conversation, host, port)
    ensures t.MatchHost(t.Authority(conversation, host, port)) == Some((conversation, host, port))
  {
    hide ToLower;
    hide PortSlot;
    hide ParsePortSlot;
    hide Decimal;
    hide FindFrom;
    hide SplitOnce;
    hide RSplitOnce;
    hide ValueOf;
    hide ParseUpTo;
    hide InDockerPool;
    var slot, number := PortSlot(host, port), Decimal(conversation);
    var middle := if t.portFirst then slot + t.between + number else number + t.between + slot;
    AuthorityIsLower(t, conversation, host, port);
    assert t.Authority(conversation, host, port) == t.before + (middle + t.after);
    StripPrefixOf(t.before, middle + t.after);
    StripSuffixOf(middle, t.after);
    if t.portFirst {
      LastSeparator(slot, t.between, number);
    } else {
      FirstSeparator(number, t.between, slot);
    }
    ParseDecimal(conversation, I64_MAX);
    SlotReadsBack(host, port);
  }

  /** A page's address is the scheme its template was written with, `http` or `https`, and the authority. */
  lemma AddressesHaveTheScheme(opens: (string, string) -> bool, template: string, conversation: nat, host: PodHost,
                               port: nat)
    requires Parse(opens, template).Ok?
    ensures var t := Parse(opens, template).value;
            var start := t.scheme + "://";
            && (t.scheme == "http" || t.scheme == "https") && start <= template
            && start <= t.UrlFor(conversation, host, port)
            && t.UrlFor(conversation, host, port)[|start|..] == t.Authority(conversation, host, port)
  {
    hide BrowserAuthority;
    hide OccursOnce;
    hide FindFrom;
    hide SplitOnce;
    hide Replace;
    hide ToLower;
    hide Cut;
    hide Template.Authority;
    var (scheme, written) := SplitOnce(template, "://").value;
    SplitStarts(template);
    var lower := ToLower(written);
    var authority := BrowserAuthority(scheme, lower).value;
    PlaceholdersStay(scheme, lower, authority, PORT);
    PlaceholdersStay(scheme, lower, authority, CONVERSATION);
    CutKeepsScheme(scheme, authority);
  }

  lemma SplitStarts(template: string)
    ensures match SplitOnce(template, "://")
            case Some((scheme, _)) => scheme + "://" <= template
            case None => true
  {
    match SplitOnce(template, "://")
    case Some((scheme, _)) => assert template[..|scheme| + 3] == scheme + template[|scheme|..|scheme| + 3];
    case None =>
  }

  lemma CutKeepsScheme(scheme: string, authority: string)
    requires FindFrom(authority, PORT, 0).Some? && FindFrom(authority, CONVERSATION, 0).Some?
    ensures Cut(scheme, authority).Ok? ==> Cut(scheme, authority).value.scheme == scheme
  {
    hide FindFrom;
    hide SplitOnce;
  }

  /** For every accepted template the parser gives back exactly what the printer was given. */
  lemma AddressesRoundTrip(opens: (string, string) -> bool, template: string, conversation: nat, host: PodHost,
                           port: nat)
    requires Parse(opens, template).Ok? && Printable(conversation, host, port)
    ensures Parse(opens, template).value.MatchHost(Parse(opens, template).value.Authority(conversation, host, port))
         == Some((conversation, host, port))
  {
    AcceptedIsWellFormed(opens, template);
    WellFormedMatches(Parse(opens, template).value, conversation, host, port);
  }

  /** An address names one triple. */
  lemma AddressesAreDistinct(opens: (string, string) -> bool, template: string,
                             conversation: nat, host: PodHost, port: nat, conversation': nat, host': PodHost,
                             port': nat)
    requires Parse(opens, template).Ok? && Printable(conversation, host, port) && Printable(conversation', host', port')
    requires Parse(opens, template).value.UrlFor(conversation, host, port)
             == Parse(opens, template).value.UrlFor(conversation', host', port')
    ensures conversation == conversation' && host == host' && port == port'
  {
    hide Parse;
    hide PortSlot;
    hide Decimal;
    hide Template.MatchHost;
    var t := Parse(opens, template).value;
    AddressesRoundTrip(opens, template, conversation, host, port);
    AddressesRoundTrip(opens, template, conversation', host', port');
    SameTail(t.scheme + "://", t.Authority(conversation, host, port), t.Authority(conversation', host', port'));
  }

  lemma SameTail(head: string, a: string, b: string)
    requires head + a == head + b
    ensures a == b
  {
    assert a == (head + a)[|head|..] && b == (head + b)[|head|..];
  }

  lemma {:induction false} JoinedHasNo(parts: seq<string>, sep: char, c: char)
    requires c != sep && !IsDigit(c) && forall p | p in parts :: IsNumber(p)
    ensures c !in Joined(parts, sep)
  {
    if parts != [] {
      assert parts[0] in parts;
    }
    if |parts| > 1 {
      JoinedHasNo(parts[1..], sep, c);
    }
  }

  lemma SlotHasNoColon(host: PodHost, port: nat)
    ensures ':' !in PortSlot(host, port)
  {
    match host
    case Localhost =>
    case Container(ip) =>
      JoinedHasNo([Decimal(ip.a), Decimal(ip.b), Decimal(ip.c), Decimal(ip.d), Decimal(port)], '-', ':');
  }

  lemma SuffixOfConcat(front: string, after: string, suffix: string)
    requires suffix != "" && suffix[0] !in front
    ensures StripSuffix(front + after, suffix).Some? ==> StripSuffix(after, suffix).Some?
  {
    var a := front + after;
    if |suffix| <= |a| && a[|a| - |suffix|..] == suffix {
      assert a[|a| - |suffix|] == suffix[0];
      assert |front| <= |a| - |suffix|;
      assert after[|after| - |suffix|..] == suffix;
    }
  }

  /** No printed authority ends with the scheme's default port. */
  lemma AuthorityHasNoDefault(t: Template, conversation: nat, host: PodHost, port: nat)
    requires t.WellFormed()
    ensures StripSuffix(t.Authority(conversation, host, port), t.DefaultSuffix()).None?
  {
    hide PortSlot;
    hide IsLower;
    hide StripSuffix;
    var slot, number := PortSlot(host, port), Decimal(conversation);
    SlotHasNoColon(host, port);
    assert ':' !in number;
    var middle := if t.portFirst then slot + t.between + number else number + t.between + slot;
    assert ':' !in t.before + middle;
    SuffixOfConcat(t.before + middle, t.after, t.DefaultSuffix());
  }

  /** The listener's own match reads an address with the scheme's default port or without it. */
  lemma RequestHostsRoundTrip(opens: (string, string) -> bool, template: string, conversation: nat, host: PodHost,
                              port: nat)
    requires Parse(opens, template).Ok? && Printable(conversation, host, port)
    ensures var t := Parse(opens, template).value;
            var authority := t.Authority(conversation, host, port);
            && t.MatchRequestHost(authority) == Some((conversation, host, port))
            && t.MatchRequestHost(authority + t.DefaultSuffix()) == Some((conversation, host, port))
  {
    hide Parse;
    hide Template.MatchHost;
    hide Template.Authority;
    hide Template.WellFormed;
    hide StripSuffix;
    var t := Parse(opens, template).value;
    AcceptedIsWellFormed(opens, template);
    AddressesRoundTrip(opens, template, conversation, host, port);
    AuthorityHasNoDefault(t, conversation, host, port);
    StripSuffixOf(t.Authority(conversation, host, port), t.DefaultSuffix());
  }

  /** Any host matched names a triple that an address is printed for, and that address matches the same. */
  lemma MatchesArePrintable(opens: (string, string) -> bool, template: string, header: string)
    requires Parse(opens, template).Ok?
    ensures match Parse(opens, template).value.MatchHost(header)
            case Some((conversation, host, port)) =>
              && Printable(conversation, host, port)
              && Parse(opens, template).value
                   .MatchHost(Parse(opens, template).value.Authority(conversation, host, port))
                 == Some((conversation, host, port))
            case None => true
  {
    hide Parse;
    var t := Parse(opens, template).value;
    MatchIsInRange(t, header);
    match t.MatchHost(header)
    case Some((conversation, host, port)) => AddressesRoundTrip(opens, template, conversation, host, port);
    case None =>
  }

  lemma MatchIsInRange(t: Template, header: string)
    ensures match t.MatchHost(header)
            case Some((conversation, host, port)) => Printable(conversation, host, port)
            case None => true
  {
    hide ParsePortSlot;
    hide ToLower;
    hide FindFrom;
    hide SplitOnce;
    hide RSplitOnce;
    hide InPod;
    match StripPrefix(ToLower(header), t.before)
    case None =>
    case Some(rest) =>
      match StripSuffix(rest, t.after)
      case None =>
      case Some(middle) =>
        match if t.portFirst then RSplitOnce(middle, t.between) else SplitOnce(middle, t.between)
        case None =>
        case Some((first, second)) => SlotIsInPod(if t.portFirst then first else second);
  }

  /** The pod's range is `172.20.0.0/14`. */
  lemma PoolIs(ip: Ip)
    ensures InDockerPool(ip) <==> ip.a == 172 && 20 <= ip.b <= 23
  {
    var low := ip.c * 0x100 + ip.d;
    assert ip.Value() == (ip.a * 64 + ip.b / 4) * 0x4_0000 + (ip.b % 4) * 0x1_0000 + low;
    assert 0 <= (ip.b % 4) * 0x1_0000 + low < 0x4_0000;
    assert ip.Value() / 0x4_0000 == ip.a * 64 + ip.b / 4;
  }
}
