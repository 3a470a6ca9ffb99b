/** Which templates `PreviewTemplate::parse` accepts (`src/preview.rs`), and what each becomes. */
module PreviewTemplates {
  import opened Wrappers
  import opened Strings
  import opened Preview

  // ----- What an accepted template is -----

  /** ASCII, no white space, and nothing that is not a host, a port or a placeholder to a browser. */
  predicate IsWritable(c: char) {
    c as int < 128 && c !in "\t\n\r /?#@[]%\\" && c as int != 11 && c as int != 12
  }

  /** No placeholder stands in `s`. */
  predicate Free(s: string) {
    !Contains(s, "{port}") && !Contains(s, "{conversation}")
  }

  /** The port a template ends with, if any, is empty or a number from 1 to 65535. */
  predicate IsPort(port: Option<string>) {
    port.Some? && port.value != "" ==> IsNumber(port.value) && 0 < ValueOf(port.value) < 65536
  }

  /** What is left of it: nothing where it is empty or the scheme's own, else its value in plain decimal. */
  function KeptPort(scheme: string, port: Option<string>): string
    requires IsPort(port)
  {
    if port.None? || port.value == "" then ""
    else if ValueOf(port.value) == (if scheme == "https" then 443 else 80) then ""
    else ":" + Decimal(ValueOf(port.value))
  }

  function Ending(host: string, port: Option<string>): string {
    host + if port.None? then "" else ":" + port.value
  }

  /** `t`'s parts with `forPort` and `forConversation` in its placeholders' places, and then `tail`. */
  function Filled(t: Template, forPort: string, forConversation: string, tail: string): string {
    t.before + (if t.portFirst then forPort else forConversation) + t.between
        + (if t.portFirst then forConversation else forPort) + tail
  }

  /** The template's text is `t`'s parts, then `host` and a port; it holds each placeholder once. */
  predicate IsLaidOut(template: string, t: Template, host: string, port: Option<string>) {
    && (t.scheme == "http" || t.scheme == "https")
    && t.scheme + "://" <= template
    && ToLower(template[|t.scheme| + 3..]) == Filled(t, "{port}", "{conversation}", Ending(host, port))
    && (forall c | c in ToLower(template[|t.scheme| + 3..]) :: IsWritable(c))
    && ':' !in t.before && ':' !in t.between && ':' !in host
    && Free(t.before) && Free(t.between) && Free(host)
    && IsPort(port) && t.after == host + KeptPort(t.scheme, port)
  }

  /** A browser opens what `t` gives for port 3000 of conversation 1. */
  predicate SampleOpens(opens: (string, string) -> bool, t: Template) {
    opens(t.scheme, Filled(t, "3000", "1", t.after))
  }

  // ----- Where placeholders stand -----

  /** A placeholder in `x + f + y` is `f`, or all in `x` or all in `y`. */
  lemma OccursBeside(x: string, f: string, y: string, q: string, k: nat)
    requires IsPlaceholder(f) && IsPlaceholder(q) && OccursAt(x + f + y, q, k)
    ensures OccursAt(x, q, k) || (k == |x| && q == f) || (|x| + |f| <= k && OccursAt(y, q, k - |x| - |f|))
  {
    hide IsPlaceholder;
    var s := x + f + y;
    assert s[|x|..|x| + |f|] == f && OccursAt(s, f, |x|);
    if k < |x| {
      PlaceholdersDontOverlap(s, q, k, f, |x|);
      assert x[k..k + |q|] == s[k..k + |q|];
    } else if k == |x| {
      SamePlaceholder(s, f, q, k);
    } else {
      PlaceholdersDontOverlap(s, f, |x|, q, k);
      var at := k - |x| - |f|;
      assert y[at..at + |q|] == s[k..k + |q|];
    }
  }

  lemma SamePlaceholder(s: string, f: string, q: string, k: nat)
    requires IsPlaceholder(f) && IsPlaceholder(q) && OccursAt(s, f, k) && OccursAt(s, q, k)
    ensures f == q
  {
    PlaceholdersDiffer(s, k);
  }

  lemma OccursInFront(x: string, y: string, q: string, k: nat)
    requires OccursAt(x, q, k)
    ensures OccursAt(x + y, q, k)
  {
    assert (x + y)[k..k + |q|] == x[k..k + |q|];
  }

  lemma OccursBehind(x: string, y: string, q: string, k: nat)
    requires OccursAt(y, q, k)
    ensures OccursAt(x + y, q, |x| + k)
  {
    assert (x + y)[|x| + k..|x| + k + |q|] == y[k..k + |q|];
  }

  /** The first placeholder is found behind text without any. */
  lemma FirstIsFound(x: string, f: string, y: string)
    requires IsPlaceholder(f) && !Contains(x, f)
    ensures FindFrom(x + f + y, f, 0) == Some(|x|) && SplitOnce(x + f + y, f) == Some((x, y))
  {
    hide IsPlaceholder;
    hide OccursAt;
    var s := x + f + y;
    Stands(x, f, y);
    var at := FindFrom(s, f, 0).value;
    if at < |x| {
      OccursBeside(x, f, y, f, at);
    }
    assert s[..|x|] == x && s[|x| + |f|..] == y;
  }

  lemma Stands(x: string, f: string, y: string)
    ensures OccursAt(x + f + y, f, |x|)
  {
    assert (x + f + y)[|x|..|x| + |f|] == f;
  }

  /** An occurrence in `x + w + y` of text without any of `w`'s characters is all in `x` or all in `y`. */
  lemma OccursAround(x: string, w: string, y: string, q: string, k: nat)
    requires w != "" && q != "" && OccursAt(x + w + y, q, k) && forall c | c in w :: c !in q
    ensures OccursAt(x, q, k) || (|x| + |w| <= k && OccursAt(y, q, k - |x| - |w|))
  {
    var s := x + w + y;
    OccursChars(s, q, k);
    forall i | |x| <= i < |x| + |w| ensures s[i] !in q {
      assert s[i] == w[i - |x|];
    }
    assert k + |q| <= |x| || |x| + |w| <= k by {
      var i := if k < |x| then |x| else k;
      assert i < k + |q| ==> s[i] == q[i - k];
    }
    if k + |q| <= |x| {
      assert x[k..k + |q|] == s[k..k + |q|];
    } else {
      var at := k - |x| - |w|;
      assert y[at..at + |q|] == s[k..k + |q|];
    }
  }

  lemma NoneAround(x: string, w: string, y: string, q: string)
    requires w != "" && q != "" && forall c | c in w :: c !in q
    requires !Contains(x, q) && !Contains(y, q)
    ensures !Contains(x + w + y, q)
  {
    hide OccursAt;
    var at := FindFrom(x + w + y, q, 0);
    if at.Some? {
      OccursAround(x, w, y, q, at.value);
    }
  }

  /** Neither placeholder is in what stands around the two. */
  lemma NoneBeside(m: string, second: string, y: string, first: string)
    requires IsPlaceholder(first) && IsPlaceholder(second) && first != second && Free(m) && Free(y)
    ensures !Contains(m + second + y, first)
  {
    hide OccursAt;
    var at := FindFrom(m + second + y, first, 0);
    if at.Some? {
      OccursBeside(m, second, y, first, at.value);
    }
  }

  // ----- The two found and cut -----

  predicate AreTheTwo(first: string, second: string) {
    (first == PORT && second == CONVERSATION) || (first == CONVERSATION && second == PORT)
  }

  lemma BothAreFound(x: string, first: string, m: string, second: string, y: string)
    requires AreTheTwo(first, second) && Free(x) && Free(m) && Free(y)
    ensures var s := x + first + m + second + y;
            && FindFrom(s, first, 0) == Some(|x|) && SplitOnce(s, first) == Some((x, m + second + y))
            && FindFrom(s, second, 0) == Some(|x| + |first| + |m|) && SplitOnce(s, second) == Some((x + first + m, y))
            && SplitOnce(m + second + y, second) == Some((m, y))
  {
    hide OccursAt;
    hide FindFrom;
    hide SplitOnce;
    assert x + first + m + second + y == x + first + (m + second + y) == (x + first + m) + second + y;
    FirstIsFound(x, first, m + second + y);
    NoneBeside(x, first, m, second);
    FirstIsFound(x + first + m, second, y);
    FirstIsFound(m, second, y);
  }

  lemma BothOccurOnce(x: string, first: string, m: string, second: string, y: string)
    requires AreTheTwo(first, second) && Free(x) && Free(m) && Free(y)
    ensures OccursOnce(x + first + m + second + y, PORT) && OccursOnce(x + first + m + second + y, CONVERSATION)
  {
    hide OccursAt;
    hide FindFrom;
    hide SplitOnce;
    hide Contains;
    BothAreFound(x, first, m, second, y);
    NoneBeside(m, second, y, first);
  }

  lemma CutIs(t: Template)
    requires Free(t.before) && Free(t.between) && Free(t.after)
    ensures var authority := Filled(t, PORT, CONVERSATION, t.after);
            && FindFrom(authority, PORT, 0).Some? && FindFrom(authority, CONVERSATION, 0).Some?
            && Cut(t.scheme, authority) == if AllDigits(t.between) then Err(OnlyDigitsBetween) else Ok(t)
  {
    hide OccursAt;
    hide FindFrom;
    hide SplitOnce;
    hide AllDigits;
    hide Free;
    var (first, second) := if t.portFirst then (PORT, CONVERSATION) else (CONVERSATION, PORT);
    BothAreFound(t.before, first, t.between, second, t.after);
  }

  // ----- The sample -----

  lemma ReplaceNone(s: string, p: string, with: string)
    requires p != "" && !Contains(s, p)
    ensures Replace(s, p, with) == s
  {
  }

  lemma ReplaceIs(x: string, p: string, y: string, with: string)
    requires IsPlaceholder(p) && !Contains(x, p) && !Contains(y, p)
    ensures Replace(x + p + y, p, with) == x + with + y
  {
    hide OccursAt;
    FirstIsFound(x, p, y);
    ReplaceNone(y, p, with);
  }

  lemma SampleIs(x: string, m: string, y: string)
    requires Free(x) && Free(m) && Free(y)
    ensures Replace(Replace(x + PORT + m + CONVERSATION + y, PORT, "3000"), CONVERSATION, "1")
            == x + "3000" + m + "1" + y
    ensures Replace(Replace(x + CONVERSATION + m + PORT + y, PORT, "3000"), CONVERSATION, "1")
            == x + "1" + m + "3000" + y
  {
    hide OccursAt;
    hide Replace;
    assert x + PORT + m + CONVERSATION + y == x + PORT + (m + CONVERSATION + y);
    NoneBeside(m, CONVERSATION, y, PORT);
    ReplaceIs(x, PORT, m + CONVERSATION + y, "3000");
    assert x + "3000" + (m + CONVERSATION + y) == (x + "3000" + m) + CONVERSATION + y;
    NoneAround(x, "3000", m, CONVERSATION);
    ReplaceIs(x + "3000" + m, CONVERSATION, y, "1");

    NoneBeside(x, CONVERSATION, m, PORT);
    ReplaceIs(x + CONVERSATION + m, PORT, y, "3000");
    assert x + CONVERSATION + m + "3000" + y == x + CONVERSATION + (m + "3000" + y);
    NoneAround(m, "3000", y, CONVERSATION);
    ReplaceIs(x, CONVERSATION, m + "3000" + y, "1");
    assert x + "1" + (m + "3000" + y) == x + "1" + m + "3000" + y;
  }

  // ----- The port -----

  lemma ColonAt(s: string, k: nat)
    ensures OccursAt(s, ":", k) <==> k < |s| && s[k] == ':'
  {
    assert k < |s| ==> s[k..k + 1] == [s[k]];
  }

  lemma LastColon(h: string, p: string)
    requires ':' !in p
    ensures RSplitOnce(h + ":" + p, ":") == Some((h, p))
  {
    hide OccursAt;
    var s := h + ":" + p;
    var at := FindLast(s, ":", |s|);
    ColonAt(s, |h|);
    ColonAt(s, at.value);
    forall i | |h| < i < |s| ensures s[i] != ':' {
      assert s[i] == p[i - |h| - 1];
    }
    assert s[..|h|] == h && s[|h| + 1..] == p;
  }

  lemma NoColon(s: string)
    ensures RSplitOnce(s, ":").None? <==> ':' !in s
  {
    hide OccursAt;
    if ':' in s {
      var k :| 0 <= k < |s| && s[k] == ':';
      ColonAt(s, k);
    } else if FindLast(s, ":", |s|).Some? {
      ColonAt(s, FindLast(s, ":", |s|).value);
    }
  }

  predicate AllWritable(s: string) {
    forall c | c in s :: IsWritable(c)
  }

  /** The three ways an authority fails before its port is looked at, in one. */
  lemma WritableIs(s: string)
    ensures AllWritable(s)
            <==> !HasAny(s, "/?#") && '@' !in s && !HasAny(s, "[]") && IsAscii(s) && !HasAny(s, WHITESPACE)
                 && !HasAny(s, "%\\")
  {
  }

  lemma PortIsDigits(port: string)
    requires IsPort(Some(port))
    ensures ':' !in port && '{' !in port
  {
  }

  lemma BrowserFormIs(scheme: string, front: string, port: Option<string>)
    requires AllWritable(Ending(front, port)) && ':' !in front && IsPort(port)
    ensures BrowserAuthority(scheme, Ending(front, port)) == Ok(front + KeptPort(scheme, port))
  {
    hide RSplitOnce;
    hide AllWritable;
    hide HasAny;
    hide IsAscii;
    hide Decimal;
    WritableIs(Ending(front, port));
    if port.None? {
      NoColon(front);
      assert front + "" == front;
    } else {
      var p := port.value;
      PortIsDigits(p);
      LastColon(front, p);
      assert front + ":" + p == front + (":" + p) == Ending(front, port);
      assert front + "" == front;
      assert p != "" ==> front + ":" + Decimal(ValueOf(p)) == front + (":" + Decimal(ValueOf(p)));
    }
  }

  // ----- What is parsed -----

  lemma LowerHasAny(s: string)
    ensures HasAny(s, "/?#") <==> HasAny(ToLower(s), "/?#")
  {
    var t := ToLower(s);
    if HasAny(s, "/?#") {
      var i :| 0 <= i < |s| && s[i] in "/?#";
      assert t[i] == s[i] && t[i] in t;
    }
    if HasAny(t, "/?#") {
      var i :| 0 <= i < |t| && t[i] in "/?#";
      assert t[i] == s[i] && s[i] in s;
    }
  }

  lemma FreeEnding(scheme: string, host: string, port: Option<string>)
    requires Free(host) && IsPort(port)
    ensures Free(Ending(host, port)) && Free(host + KeptPort(scheme, port))
  {
    assert host + "" == host;
    if port.Some? {
      FreeBeforePort(host, port.value);
      if port.value != "" {
        FreeBeforePort(host, Decimal(ValueOf(port.value)));
      }
    }
  }

  lemma FreeBeforePort(host: string, digits: string)
    requires Free(host) && AllDigits(digits)
    ensures Free(host + (":" + digits))
  {
    hide OccursAt;
    hide AllDigits;
    forall c | c in ":" + digits ensures c !in PORT && c !in CONVERSATION {
      DigitOrColon(digits, c);
    }
    NoneAround(host, ":" + digits, "", PORT);
    NoneAround(host, ":" + digits, "", CONVERSATION);
    assert host + (":" + digits) + "" == host + (":" + digits);
  }

  lemma DigitOrColon(digits: string, c: char)
    requires AllDigits(digits) && c in ":" + digits
    ensures c == ':' || IsDigit(c)
  {
  }

  /** A text laid out as a template is parsed into it, unless a browser would not open its sample. */
  lemma LaidOutIsParsed(opens: (string, string) -> bool, template: string, t: Template, host: string,
                        port: Option<string>)
    requires IsLaidOut(template, t, host, port)
    ensures Parse(opens, template)
            == if !SampleOpens(opens, t) then Err(NotOpenable)
               else if AllDigits(t.between) then Err(OnlyDigitsBetween)
               else Ok(t)
  {
    hide OccursAt;
    hide FindFrom;
    hide SplitOnce;
    hide BrowserAuthority;
    hide OccursOnce;
    hide HasAny;
    hide Replace;
    hide Cut;
    hide Free;
    hide ToLower;
    hide AllDigits;
    hide KeptPort;
    hide IsPort;
    hide IsWritable;
    var written := template[|t.scheme| + 3..];
    var lower := ToLower(written);
    var authority := Filled(t, PORT, CONVERSATION, t.after);
    SplitOnceOf(t.scheme, "://", written);
    assert template == t.scheme + "://" + written;
    assert AllWritable(lower);
    WritableIs(lower);
    LowerHasAny(written);
    FreeEnding(t.scheme, host, port);
    HoldsBoth(t, Ending(host, port));
    AuthorityIs(t, host, port);
    SampleIs(t.before, t.between, t.after);
    CutIs(t);
  }

  lemma HoldsBoth(t: Template, tail: string)
    requires Free(t.before) && Free(t.between) && Free(tail)
    ensures OccursOnce(Filled(t, PORT, CONVERSATION, tail), PORT)
            && OccursOnce(Filled(t, PORT, CONVERSATION, tail), CONVERSATION)
  {
    hide OccursOnce;
    hide Free;
    var (first, second) := if t.portFirst then (PORT, CONVERSATION) else (CONVERSATION, PORT);
    BothOccurOnce(t.before, first, t.between, second, tail);
  }

  lemma AuthorityIs(t: Template, host: string, port: Option<string>)
    requires ':' !in t.before && ':' !in t.between && ':' !in host
    requires IsPort(port) && t.after == host + KeptPort(t.scheme, port)
    requires AllWritable(Filled(t, PORT, CONVERSATION, Ending(host, port)))
    ensures BrowserAuthority(t.scheme, Filled(t, PORT, CONVERSATION, Ending(host, port)))
            == Ok(Filled(t, PORT, CONVERSATION, t.after))
  {
    hide BrowserAuthority;
    hide KeptPort;
    hide IsPort;
    hide AllWritable;
    var (first, second) := if t.portFirst then (PORT, CONVERSATION) else (CONVERSATION, PORT);
    var front := t.before + first + t.between + second + host;
    NoColonInFront(t.before, first, t.between, second, host);
    assert Filled(t, PORT, CONVERSATION, Ending(host, port)) == Ending(front, port);
    BrowserFormIs(t.scheme, front, port);
    assert front + KeptPort(t.scheme, port) == Filled(t, PORT, CONVERSATION, t.after);
  }

  lemma NoColonInFront(x: string, first: string, m: string, second: string, y: string)
    requires ':' !in x && ':' !in m && ':' !in y && IsPlaceholder(first) && IsPlaceholder(second)
    ensures ':' !in x + first + m + second + y
  {
    hide IsPlaceholder;
    PlaceholderChars(first);
    PlaceholderChars(second);
  }

  // ----- How an accepted text is laid out -----

  lemma FirstOf(s: string, p: string)
    requires OccursOnce(s, p)
    ensures var at := FindFrom(s, p, 0);
            && at.Some? && OccursAt(s, p, at.value) && at.value + |p| <= |s|
            && (forall k: nat | k < at.value :: !OccursAt(s, p, k))
            && !Contains(s[at.value + |p|..], p)
  {
  }

  /** Each placeholder occurs once, so text holding both is cut at them into three parts without any. */
  lemma TwoSplit(s: string) returns (x: string, m: string, y: string, portFirst: bool)
    requires OccursOnce(s, PORT) && OccursOnce(s, CONVERSATION)
    ensures s == x + (if portFirst then PORT else CONVERSATION) + m + (if portFirst then CONVERSATION else PORT) + y
    ensures Free(x) && Free(m) && Free(y)
  {
    hide OccursAt;
    hide OccursOnce;
    hide FindFrom;
    hide Contains;
    hide Free;
    FirstOf(s, PORT);
    FirstOf(s, CONVERSATION);
    var i, j := FindFrom(s, PORT, 0).value, FindFrom(s, CONVERSATION, 0).value;
    PlaceholdersDiffer(s, i);
    portFirst := i < j;
    var (first, second) := if portFirst then (PORT, CONVERSATION) else (CONVERSATION, PORT);
    var (a, b) := if portFirst then (i, j) else (j, i);
    x, m, y := CutAtTwo(s, first, a, second, b);
  }

  lemma CutAtTwo(s: string, first: string, a: nat, second: string, b: nat) returns (x: string, m: string, y: string)
    requires AreTheTwo(first, second) && OccursOnce(s, first) && OccursOnce(s, second) && a < b
    requires FindFrom(s, first, 0) == Some(a) && FindFrom(s, second, 0) == Some(b)
    ensures s == x + first + m + second + y && Free(x) && Free(m) && Free(y)
  {
    hide OccursAt;
    hide OccursOnce;
    hide FindFrom;
    hide Contains;
    hide Free;
    FirstOf(s, first);
    FirstOf(s, second);
    PlaceholdersDontOverlap(s, first, a, second, b);
    x, m, y := s[..a], s[a + |first|..b], s[b + |second|..];
    OccursIs(s, first, a);
    OccursIs(s, second, b);
    PartsAreFree(s, first, a, second, b);
  }

  lemma OccursIs(s: string, p: string, at: nat)
    requires OccursAt(s, p, at)
    ensures at + |p| <= |s| && s[at..at + |p|] == p
  {
  }

  /** An occurrence in a part of `s` is one in `s`. */
  lemma OccursInWhole(s: string, from: nat, to: nat, q: string, k: nat)
    requires from <= to <= |s| && OccursAt(s[from..to], q, k)
    ensures OccursAt(s, q, from + k) && from + k + |q| <= to
    ensures OccursAt(s[from..], q, k)
  {
    var part := s[from..to];
    OccursChars(part, q, k);
    assert from + k + |q| <= to;
    forall i | 0 <= i < |q| ensures s[from + k + i] == q[i] {
      assert part[k + i] == q[k + i - k];
    }
    assert s[from + k..from + k + |q|] == q;
    assert s[from..][k..k + |q|] == q;
  }

  lemma PartsAreFree(s: string, first: string, a: nat, second: string, b: nat)
    requires AreTheTwo(first, second) && a + |first| <= b && b + |second| <= |s|
    requires forall k: nat | k < a :: !OccursAt(s, first, k)
    requires forall k: nat | k < b :: !OccursAt(s, second, k)
    requires !Contains(s[a + |first|..], first) && !Contains(s[b + |second|..], second)
    ensures Free(s[..a]) && Free(s[a + |first|..b]) && Free(s[b + |second|..])
  {
    hide OccursAt;
    hide FindFrom;
    NoneBefore(s, 0, a, first);
    NoneBefore(s, 0, a, second);
    assert s[..a] == s[0..a];
    NoneInPart(s, a + |first|, b, first);
    NoneBefore(s, a + |first|, b, second);
    NoneInTail(s, a + |first|, b + |second|, first);
  }

  lemma NoneBefore(s: string, from: nat, to: nat, q: string)
    requires from <= to <= |s| && q != "" && forall k: nat | k < to :: !OccursAt(s, q, k)
    ensures !Contains(s[from..to], q)
  {
    hide OccursAt;
    var at := FindFrom(s[from..to], q, 0);
    if at.Some? {
      OccursInWhole(s, from, to, q, at.value);
    }
  }

  lemma NoneInPart(s: string, from: nat, to: nat, q: string)
    requires from <= to <= |s| && !Contains(s[from..], q)
    ensures !Contains(s[from..to], q)
  {
    hide OccursAt;
    var at := FindFrom(s[from..to], q, 0);
    if at.Some? {
      OccursInWhole(s, from, to, q, at.value);
    }
  }

  lemma NoneInTail(s: string, from: nat, later: nat, q: string)
    requires from <= later <= |s| && !Contains(s[from..], q)
    ensures !Contains(s[later..], q)
  {
    hide OccursAt;
    var at := FindFrom(s[later..], q, 0);
    if at.Some? {
      OccursInTail(s, from, later, q, at.value);
    }
  }

  lemma OccursInTail(s: string, from: nat, later: nat, q: string, k: nat)
    requires from <= later <= |s| && OccursAt(s[later..], q, k)
    ensures OccursAt(s[from..], q, later - from + k)
  {
    assert s[later..][k..k + |q|] == s[from..][later - from + k..later - from + k + |q|];
  }

  /** Where an authority's browser form exists, its one colon, if any, is behind the last placeholder. */
  lemma EndingOf(scheme: string, front: string, second: string, y: string) returns (host: string, port: Option<string>)
    requires IsPlaceholder(second) && BrowserAuthority(scheme, front + second + y).Ok?
    ensures y == Ending(host, port) && ':' !in front && ':' !in host && IsPort(port)
  {
    hide IsPlaceholder;
    hide OccursAt;
    hide RSplitOnce;
    var s := front + second + y;
    BrowserFormNeeds(scheme, s);
    NoColon(s);
    match RSplitOnce(s, ":")
    case None =>
      host, port := y, None;
      NotInParts(front + second, y, ':');
      NotInParts(front, second, ':');
    case Some((h, p)) =>
      RSplitIs(s, h, p);
      host := EndingAtColon(front, second, y, h, p);
      port := Some(p);
  }

  lemma EndingAtColon(front: string, second: string, y: string, h: string, p: string) returns (host: string)
    requires IsPlaceholder(second) && front + second + y == h + ":" + p && ':' !in h && '{' !in p
    ensures y == host + (":" + p) && ':' !in front && ':' !in host
  {
    hide IsPlaceholder;
    hide OccursAt;
    var s := front + second + y;
    PlaceholderChars(second);
    Stands(front, second, y);
    OccursChars(s, second, |front|);
    OnOneSide(s, second, |front|, |h|);
    assert s[|h| + 1..] == p;
    InTail(s, |h| + 1, '{');
    host := h[|front| + |second|..];
    assert h == front + second + host;
    assert y == s[|front + second|..] == host + (":" + p);
    NotInParts(front + second, host, ':');
    NotInParts(front, second, ':');
  }

  lemma RSplitIs(s: string, h: string, p: string)
    requires RSplitOnce(s, ":") == Some((h, p))
    ensures s == h + ":" + p
  {
    hide OccursAt;
    ColonAt(s, |h|);
    assert |h| + 1 <= |s|;
  }

  /** What a browser's form asks for. */
  lemma BrowserFormNeeds(scheme: string, s: string)
    requires BrowserAuthority(scheme, s).Ok?
    ensures '@' !in s && !HasAny(s, "[]") && IsAscii(s) && !HasAny(s, WHITESPACE) && !HasAny(s, "%\\")
    ensures match RSplitOnce(s, ":")
            case None => true
            case Some((h, p)) => '{' !in p && ':' !in h && IsPort(Some(p))
  {
    hide RSplitOnce;
    hide HasAny;
    hide IsAscii;
  }

  /** Every accepted text is laid out as a template. */
  lemma AcceptedIsLaidOut(opens: (string, string) -> bool, template: string)
    returns (t: Template, host: string, port: Option<string>)
    requires Parse(opens, template).Ok?
    ensures IsLaidOut(template, t, host, port)
  {
    hide OccursAt;
    hide FindFrom;
    hide SplitOnce;
    hide BrowserAuthority;
    hide OccursOnce;
    hide HasAny;
    hide Replace;
    hide Cut;
    hide Free;
    hide ToLower;
    hide KeptPort;
    hide IsPort;
    hide IsWritable;
    var (scheme, written) := SplitOnce(template, "://").value;
    SplitIs(template, "://");
    assert template[..|scheme| + 3] == scheme + "://" && template[|scheme| + 3..] == written;
    var lower := ToLower(written);
    var x, m, y, portFirst := TwoSplit(lower);
    var (first, second) := if portFirst then (PORT, CONVERSATION) else (CONVERSATION, PORT);
    host, port := EndingOf(scheme, x + first + m, second, y);
    NotInParts(x + first, m, ':');
    NotInParts(x, first, ':');
    FreePart(host, port);
    LowerHasAny(written);
    BrowserFormNeeds(scheme, lower);
    WritableIs(lower);
    t := Template(scheme, x, m, host + KeptPort(scheme, port), portFirst);
    assert lower == Filled(t, PORT, CONVERSATION, Ending(host, port));
  }

  lemma FreePart(host: string, port: Option<string>)
    requires Free(Ending(host, port))
    ensures Free(host)
  {
    hide OccursAt;
    hide FindFrom;
    var rest := if port.None? then "" else ":" + port.value;
    NoneInFront(host, rest, "{port}");
    NoneInFront(host, rest, "{conversation}");
  }

  lemma NoneInFront(x: string, y: string, q: string)
    requires !Contains(x + y, q)
    ensures !Contains(x, q)
  {
    hide OccursAt;
    var at := FindFrom(x, q, 0);
    if at.Some? {
      OccursInFront(x, y, q, at.value);
    }
  }

  /**
   A text is accepted, and becomes `t`, exactly when it is laid out as `t`, something other than digits is between its
   placeholders, and a browser opens its sample. What is wrong with a text laid out as one is said in that order.
   */
  lemma TemplatesAreParsed(opens: (string, string) -> bool, template: string, t: Template)
    ensures Parse(opens, template) == Ok(t)
            <==> exists host, port ::
                IsLaidOut(template, t, host, port) && SampleOpens(opens, t) && !AllDigits(t.between)
  {
    hide Parse;
    hide IsLaidOut;
    hide AllDigits;
    hide SampleOpens;
    if Parse(opens, template) == Ok(t) {
      var u, host, port := AcceptedIsLaidOut(opens, template);
      LaidOutIsParsed(opens, template, u, host, port);
      assert IsLaidOut(template, t, host, port);
    }
    forall host, port | IsLaidOut(template, t, host, port) && SampleOpens(opens, t) && !AllDigits(t.between)
      ensures Parse(opens, template) == Ok(t)
    {
      LaidOutIsParsed(opens, template, t, host, port);
    }
  }
}
