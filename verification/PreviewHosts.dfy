/** Which `Host` headers name a preview (`match_host` in `src/preview.rs`), and what each names. */
module PreviewHosts {
  import opened Wrappers
  import opened Strings
  import opened Preview

  /** A slot with the port written as `digits`, which may begin with zeros. */
  function SlotWith(host: PodHost, digits: string): string {
    match host
    case Localhost => digits
    case Container(ip) => Decimal(ip.a) + "-" + Decimal(ip.b) + "-" + Decimal(ip.c) + "-" + Decimal(ip.d) + "-" + digits
  }

  /** The host is localhost or a container in 172.20.0.0/14, and both numbers are in range. */
  predicate CanBeNamed(conversation: nat, host: PodHost, port: nat) {
    && 0 < conversation <= 0x7FFF_FFFF_FFFF_FFFF && 0 < port <= 65535
    && (host.Container? ==> host.ip.a == 172 && 20 <= host.ip.b <= 23)
  }

  /** `host`'s text in lower case is `t` with the two numbers, written as `number` and `digits`, in their places. */
  predicate Names(t: Template, header: string, conversation: nat, host: PodHost, port: nat,
                  number: string, digits: string)
  {
    && IsNumber(number) && ValueOf(number) == conversation
    && IsNumber(digits) && ValueOf(digits) == port
    && ToLower(header)
       == t.before + (if t.portFirst then SlotWith(host, digits) + t.between + number
                      else number + t.between + SlotWith(host, digits)) + t.after
  }

  // ----- Slots -----

  lemma SlotIsJoined(host: PodHost, digits: string)
    ensures SlotWith(host, digits)
            == match host
               case Localhost => digits
               case Container(ip) =>
                 Joined([Decimal(ip.a), Decimal(ip.b), Decimal(ip.c), Decimal(ip.d)] + [digits], '-')
  {
    if host.Container? {
      var ip := host.ip;
      var a, b, c, d := Decimal(ip.a), Decimal(ip.b), Decimal(ip.c), Decimal(ip.d);
      assert [a, b, c, d] + [digits] == [a, b, c, d, digits];
      JoinedFive(a, b, c, d, digits);
    }
  }

  lemma JoinedFive(a: string, b: string, c: string, d: string, e: string)
    ensures Joined([a, b, c, d, e], '-') == a + "-" + b + "-" + c + "-" + d + "-" + e
  {
    var parts := [a, b, c, d, e];
    assert parts[1..] == [b, c, d, e] && parts[1..][1..] == [c, d, e] && [c, d, e][1..] == [d, e] && [d, e][1..] == [e];
    assert Joined([d, e], '-') == d + "-" + e;
    assert Joined([c, d, e], '-') == c + "-" + (d + "-" + e);
    assert Joined([b, c, d, e], '-') == b + "-" + (c + "-" + (d + "-" + e));
  }

  /** A slot is read as the host and the port it was written with. */
  lemma SlotIsRead(host: PodHost, digits: string)
    requires InPod(host) && IsNumber(digits) && 0 < ValueOf(digits) <= 65535
    ensures ParsePortSlot(SlotWith(host, digits)) == Some((host, ValueOf(digits)))
  {
    hide ParseIp;
    hide InDockerPool;
    hide SlotWith;
    hide ValueOf;
    SlotIsJoined(host, digits);
    match host
    case Localhost =>
      NumbersHoldNo([digits], '-');
      SplitAtWhole(digits, '-');
    case Container(ip) =>
      var address := [Decimal(ip.a), Decimal(ip.b), Decimal(ip.c), Decimal(ip.d)];
      var parts := address + [digits];
      NumbersHoldNo(parts, '-');
      JoinedSplits(parts, '-');
      assert parts[..4] == address;
      IpReadsBack(ip);
  }

  /** Text is its own parts, joined where it was cut. */
  lemma {:induction false} SplitsJoin(s: string, c: char)
    ensures SplitAt(s, c) != [] && Joined(SplitAt(s, c), c) == s
    decreases |s|
  {
    hide OccursAt;
    hide FindFrom;
    SplitIs(s, [c]);
    match SplitOnce(s, [c])
    case None =>
    case Some((first, rest)) => SplitsJoin(rest, c);
  }

  lemma SameParts(a: seq<string>, b: seq<string>)
    requires a != [] && b != [] && Joined(a, '.') == Joined(b, '.')
    requires (forall p | p in a :: IsNumber(p)) && forall p | p in b :: IsNumber(p)
    ensures a == b
  {
    NumbersHoldNo(a, '.');
    NumbersHoldNo(b, '.');
    JoinedSplits(a, '.');
    JoinedSplits(b, '.');
  }

  /** Only such a slot is read. */
  lemma ReadSlotIs(slot: string) returns (digits: string)
    requires ParsePortSlot(slot).Some?
    ensures var (host, port) := ParsePortSlot(slot).value;
            && InPod(host) && 0 < port <= 65535
            && IsNumber(digits) && ValueOf(digits) == port && slot == SlotWith(host, digits)
  {
    hide SplitAt;
    hide Joined;
    hide ParseIp;
    hide InDockerPool;
    hide SlotWith;
    hide ValueOf;
    hide AllDigits;
    var (host, port) := ParsePortSlot(slot).value;
    var parts := SplitAt(slot, '-');
    SplitsJoin(slot, '-');
    digits := parts[|parts| - 1];
    SlotIsJoined(host, digits);
    match host
    case Localhost =>
      assert parts == [digits];
      JoinedOne(digits);
    case Container(ip) =>
      SameParts(parts[..4], [Decimal(ip.a), Decimal(ip.b), Decimal(ip.c), Decimal(ip.d)]);
      assert parts == parts[..4] + [digits];
  }

  lemma JoinedOne(s: string)
    ensures Joined([s], '-') == s
  {
  }

  // ----- Headers -----

  lemma NamedIsMatched(t: Template, header: string, conversation: nat, host: PodHost, port: nat,
                       number: string, digits: string)
    requires !AllDigits(t.between) && CanBeNamed(conversation, host, port)
    requires Names(t, header, conversation, host, port, number, digits)
    ensures t.MatchHost(header) == Some((conversation, host, port))
  {
    hide ToLower;
    hide SlotWith;
    hide ParsePortSlot;
    hide FindFrom;
    hide SplitOnce;
    hide RSplitOnce;
    hide ValueOf;
    hide AllDigits;
    var slot := SlotWith(host, digits);
    var middle := if t.portFirst then slot + t.between + number else number + t.between + slot;
    assert ToLower(header) == t.before + (middle + t.after);
    StripPrefixOf(t.before, middle + t.after);
    StripSuffixOf(middle, t.after);
    if t.portFirst {
      LastSeparator(slot, t.between, number);
    } else {
      FirstSeparator(number, t.between, slot);
    }
    if host.Container? {
      PoolIs(host.ip);
    }
    SlotIsRead(host, digits);
  }

  lemma CutIs(s: string, p: string, last: bool)
    ensures match if last then RSplitOnce(s, p) else SplitOnce(s, p)
            case Some((first, second)) => s == first + p + second
            case None => true
  {
  }

  lemma MatchedIsNamed(t: Template, header: string) returns (number: string, digits: string)
    requires t.MatchHost(header).Some?
    ensures var (conversation, host, port) := t.MatchHost(header).value;
            CanBeNamed(conversation, host, port) && Names(t, header, conversation, host, port, number, digits)
  {
    hide ToLower;
    hide SlotWith;
    hide ParsePortSlot;
    hide FindFrom;
    hide SplitOnce;
    hide RSplitOnce;
    hide ValueOf;
    hide AllDigits;
    var rest := StripPrefix(ToLower(header), t.before).value;
    var middle := StripSuffix(rest, t.after).value;
    CutIs(middle, t.between, t.portFirst);
    var (first, second) := (if t.portFirst then RSplitOnce(middle, t.between) else SplitOnce(middle, t.between)).value;
    var slot := if t.portFirst then first else second;
    number := if t.portFirst then second else first;
    digits := ReadSlotIs(slot);
    var host := ParsePortSlot(slot).value.0;
    if host.Container? {
      PoolIs(host.ip);
    }
    assert ToLower(header) == t.before + middle + t.after;
  }

  /**
   For every accepted template, a header names a conversation's `host` and `port` exactly when, in lower case, it is
   the template with the two in their placeholders' places, up to zeros in front of the two numbers.
   */
  lemma HostsAreMatched(opens: (string, string) -> bool, template: string, header: string, conversation: nat,
                        host: PodHost, port: nat)
    requires Parse(opens, template).Ok?
    ensures var t := Parse(opens, template).value;
            t.MatchHost(header) == Some((conversation, host, port))
            <==> CanBeNamed(conversation, host, port)
                 && exists number, digits :: Names(t, header, conversation, host, port, number, digits)
  {
    hide Parse;
    hide Names;
    hide CanBeNamed;
    hide Template.MatchHost;
    var t := Parse(opens, template).value;
    AcceptedIsWellFormed(opens, template);
    if t.MatchHost(header) == Some((conversation, host, port)) {
      var number, digits := MatchedIsNamed(t, header);
    }
    forall number, digits | CanBeNamed(conversation, host, port)
                            && Names(t, header, conversation, host, port, number, digits)
      ensures t.MatchHost(header) == Some((conversation, host, port))
    {
      NamedIsMatched(t, header, conversation, host, port, number, digits);
    }
  }
}
