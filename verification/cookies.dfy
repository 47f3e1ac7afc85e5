/** Cookie string handling (src/lib/cookies.ts). `document.cookie` is a string
    argument here; the writers return the string they would assign to it. */
module Cookies {
  import opened Wrappers
  import Text

  /** `s.split(';')`: the `;`-free pieces between separators, at least one. */
  function Split(s: string): (r: seq<string>)
    ensures |r| >= 1
    ensures forall i :: 0 <= i < |r| ==> ';' !in r[i]
    decreases |s|
  {
    if |s| == 0 then [""]
    else
      var rest := Split(s[1..]);
      if s[0] == ';' then [""] + rest
      else [[s[0]] + rest[0]] + rest[1..]
  }

  lemma PrependAssoc(c: char, a: string, b: string)
    ensures ([c] + a) + ";" + b == [c] + (a + ";" + b)
  {
  }

  /** Prepending a character to the first piece prepends it to the joined text. */
  lemma JoinExtendHead(c: char, parts: seq<string>)
    requires |parts| >= 1
    ensures Text.Join([[c] + parts[0]] + parts[1..], ";") == [c] + Text.Join(parts, ";")
  {
    var x := [[c] + parts[0]] + parts[1..];
    if |parts| == 1 {
      assert x == [[c] + parts[0]];
    } else {
      assert x[1..] == parts[1..];
      var tail := Text.Join(parts[1..], ";");
      assert Text.Join(x, ";") == x[0] + ";" + tail;
      PrependAssoc(c, parts[0], tail);
    }
  }

  /** Joining the pieces with `;` gives back the original string. */
  lemma {:induction false} JoinSplit(s: string)
    ensures Text.Join(Split(s), ";") == s
    decreases |s|
  {
    if |s| > 0 {
      var rest := Split(s[1..]);
      JoinSplit(s[1..]);
      assert s == [s[0]] + s[1..];
      if s[0] == ';' {
        Text.JoinCons("", rest, ";");
      } else {
        JoinExtendHead(s[0], rest);
      }
    }
  }

  /** A piece without `;` splits to itself. */
  lemma {:induction false} SplitNoSeparator(a: string)
    requires ';' !in a
    ensures Split(a) == [a]
    decreases |a|
  {
    if |a| > 0 {
      SplitNoSeparator(a[1..]);
      assert a == [a[0]] + a[1..];
    }
  }

  /** Splitting stops at the first `;`. */
  lemma {:induction false} SplitAfterPiece(a: string, t: string)
    requires ';' !in a
    ensures Split(a + ";" + t) == [a] + Split(t)
    decreases |a|
  {
    var s := a + ";" + t;
    if |a| == 0 {
      assert s[1..] == t;
    } else {
      assert s[1..] == a[1..] + ";" + t;
      SplitAfterPiece(a[1..], t);
      assert a == [a[0]] + a[1..];
    }
  }

  /** Splitting undoes joining with `;`. */
  lemma {:induction false} SplitJoin(parts: seq<string>)
    requires |parts| >= 1
    requires forall i :: 0 <= i < |parts| ==> ';' !in parts[i]
    ensures Split(Text.Join(parts, ";")) == parts
    decreases |parts|
  {
    if |parts| == 1 {
      SplitNoSeparator(parts[0]);
    } else {
      Text.JoinCons(parts[0], parts[1..], ";");
      assert [parts[0]] + parts[1..] == parts;
      SplitJoin(parts[1..]);
      SplitAfterPiece(parts[0], Text.Join(parts[1..], ";"));
    }
  }

  /** `while (c.charAt(0) === ' ') c = c.substring(1)`: drops leading spaces only. */
  function StripLeadingSpaces(c: string): (r: string)
    ensures |r| <= |c| && r == c[|c| - |r|..]
    ensures forall i :: 0 <= i < |c| - |r| ==> c[i] == ' '
    ensures |r| > 0 ==> r[0] != ' '
    decreases |c|
  {
    if |c| > 0 && c[0] == ' ' then StripLeadingSpaces(c[1..]) else c
  }

  /** A segment matches when, once stripped, it begins with `name=`. */
  predicate Matches(segment: string, key: string) {
    key <= StripLeadingSpaces(segment)
  }

  /** Segment `i` is the first one that matches. */
  predicate IsFirstMatch(segments: seq<string>, key: string, i: int) {
    && 0 <= i < |segments|
    && Matches(segments[i], key)
    && forall j :: 0 <= j < i ==> !Matches(segments[j], key)
  }

  /** No segment matches. */
  predicate NoneMatches(segments: seq<string>, key: string) {
    forall i :: 0 <= i < |segments| ==> !Matches(segments[i], key)
  }

  lemma FirstMatchAfterMiss(segments: seq<string>, key: string)
    requires |segments| > 0 && !Matches(segments[0], key)
    ensures forall i :: IsFirstMatch(segments, key, i) <==> i >= 1 && IsFirstMatch(segments[1..], key, i - 1)
    ensures NoneMatches(segments, key) <==> NoneMatches(segments[1..], key)
  {
    forall i ensures IsFirstMatch(segments, key, i) <==> i >= 1 && IsFirstMatch(segments[1..], key, i - 1) {
      if 1 <= i < |segments| {
        assert forall j :: 1 <= j < i ==> segments[j] == segments[1..][j - 1];
      }
    }
    assert forall i :: 1 <= i < |segments| ==> segments[i] == segments[1..][i - 1];
  }

  /** The loop of `getCookie` over the split segments. */
  function Lookup(segments: seq<string>, key: string): (r: Option<string>)
    ensures r.None? <==> NoneMatches(segments, key)
    ensures forall i :: IsFirstMatch(segments, key, i) ==> r == Some(StripLeadingSpaces(segments[i])[|key|..])
    decreases |segments|
  {
    if |segments| == 0 then None
    else if Matches(segments[0], key) then
      Some(StripLeadingSpaces(segments[0])[|key|..])
    else
      var r := Lookup(segments[1..], key);
      MissShifts(segments, key, r);
      r
  }

  /** The answer for the segments after a miss is the answer for all of them. */
  lemma MissShifts(segments: seq<string>, key: string, r: Option<string>)
    requires |segments| > 0 && !Matches(segments[0], key)
    requires r.None? <==> NoneMatches(segments[1..], key)
    requires forall i :: IsFirstMatch(segments[1..], key, i) ==>
               r == Some(StripLeadingSpaces(segments[1..][i])[|key|..])
    ensures r.None? <==> NoneMatches(segments, key)
    ensures forall i :: IsFirstMatch(segments, key, i) ==> r == Some(StripLeadingSpaces(segments[i])[|key|..])
  {
    FirstMatchAfterMiss(segments, key);
    forall i | IsFirstMatch(segments, key, i)
      ensures r == Some(StripLeadingSpaces(segments[i])[|key|..])
    {
      assert IsFirstMatch(segments[1..], key, i - 1);
      assert segments[1..][i - 1] == segments[i];
    }
  }

  /** `getCookie(name)` over the cookie string: the text after `name=` in the
      first segment that matches, or null when none does. */
  function GetCookie(cookie: string, name: string): (r: Option<string>)
    ensures r.None? <==> NoneMatches(Split(cookie), name + "=")
    ensures forall i :: IsFirstMatch(Split(cookie), name + "=", i) ==>
              r == Some(StripLeadingSpaces(Split(cookie)[i])[|name| + 1..])
  {
    Lookup(Split(cookie), name + "=")
  }

  /** `date.getTime() + seconds * 1000`: the expiry instant in milliseconds. */
  function ExpiryMs(nowMs: int, seconds: int): int {
    nowMs + seconds * 1000
  }

  const Attributes: string := "; path=/; Secure; SameSite=Strict"

  /** `setCookie(name, value, seconds)`: the string assigned to `document.cookie`.
      `toUtc` stands for `Date.prototype.toUTCString`; a null or empty value is
      written as empty. */
  function SetCookie(name: string, value: Option<string>, seconds: int, nowMs: int,
                     toUtc: int -> string): (r: string)
    ensures name + "=" + value.GetOr("") <= r
    ensures |r| >= |Attributes| && r[|r| - |Attributes|..] == Attributes
  {
    name + "=" + value.GetOr("") + "; expires=" + toUtc(ExpiryMs(nowMs, seconds)) + Attributes
  }

  /** 1 January 1970, 00:00:01 GMT: one second after the epoch. */
  const EpochExpiry: string := " Expires=Thu, 01 Jan 1970 00:00:01 GMT"

  /** `; Path=/; Expires=...; Secure; SameSite=Strict`, written piece by piece
      so that `EraseCookieSegments` can split it without the verifier reading
      the literal character by character. */
  const EraseAttributes: string := ";" + " Path=/" + ";" + EpochExpiry + ";" + " Secure" + ";" + " SameSite=Strict"

  /** `eraseCookie(name)`: the name with an empty value, expired at 1 January 1970. */
  function EraseCookie(name: string): (r: string)
    ensures name + "=" <= r
  {
    name + "=" + EraseAttributes
  }

  lemma SetCookieJoined(name: string, value: Option<string>, seconds: int, nowMs: int,
                          toUtc: int -> string)
    ensures SetCookie(name, value, seconds, nowMs, toUtc)
         == Text.Join([name + "=" + value.GetOr(""), " expires=" + toUtc(ExpiryMs(nowMs, seconds)),
             " path=/", " Secure", " SameSite=Strict"], ";")
  {
    var pair := name + "=" + value.GetOr("");
    var t := toUtc(ExpiryMs(nowMs, seconds));
    SetCookieText(pair, t);
    JoinOfFive(pair, " expires=" + t, " path=/", " Secure", " SameSite=Strict");
  }

  lemma SetCookieText(pair: string, t: string)
    ensures pair + "; expires=" + t + Attributes
         == pair + ";" + (" expires=" + t) + ";" + " path=/" + ";" + " Secure" + ";" + " SameSite=Strict"
  {
    assert "; expires=" == ";" + " expires=";
    assert Attributes == ";" + " path=/" + ";" + " Secure" + ";" + " SameSite=Strict";
  }

  /** The pieces `setCookie` writes, in order: the pair, then its attributes. */
  lemma SetCookieSegments(name: string, value: Option<string>, seconds: int, nowMs: int,
                          toUtc: int -> string)
    requires ';' !in name && ';' !in value.GetOr("")
    requires ';' !in toUtc(ExpiryMs(nowMs, seconds))
    ensures Split(SetCookie(name, value, seconds, nowMs, toUtc))
         == [name + "=" + value.GetOr(""), " expires=" + toUtc(ExpiryMs(nowMs, seconds)),
             " path=/", " Secure", " SameSite=Strict"]
  {
    SetCookieJoined(name, value, seconds, nowMs, toUtc);
    SplitJoin([name + "=" + value.GetOr(""), " expires=" + toUtc(ExpiryMs(nowMs, seconds)),
               " path=/", " Secure", " SameSite=Strict"]);
  }

  lemma EraseCookieText(name: string)
    ensures EraseCookie(name)
         == (name + "=") + ";" + " Path=/" + ";" + EpochExpiry + ";" + " Secure" + ";" + " SameSite=Strict"
  {
    AppendEight(name + "=", ";", " Path=/", ";", EpochExpiry, ";", " Secure", ";", " SameSite=Strict");
  }

  /** Regrouping a concatenation; stated once so that long attribute strings
      need not be re-associated by the solver at each use. */
  lemma AppendEight(x: string, a: string, b: string, c: string, d: string, e: string, f: string, g: string, h: string)
    ensures x + (a + b + c + d + e + f + g + h) == x + a + b + c + d + e + f + g + h
  {
  }

  /** The pieces `eraseCookie` writes, in order. */
  lemma EraseCookieSegments(name: string)
    requires ';' !in name
    ensures Split(EraseCookie(name)) == [name + "=", " Path=/", EpochExpiry, " Secure", " SameSite=Strict"]
  {
    EraseCookieText(name);
    JoinOfFive(name + "=", " Path=/", EpochExpiry, " Secure", " SameSite=Strict");
    SplitJoin([name + "=", " Path=/", EpochExpiry, " Secure", " SameSite=Strict"]);
  }

  lemma JoinOfFive(a: string, b: string, c: string, d: string, e: string)
    ensures Text.Join([a, b, c, d, e], ";") == a + ";" + b + ";" + c + ";" + d + ";" + e
  {
    JoinFive([a, b, c, d, e]);
  }

  /** `Join` of five pieces unfolded step by step, so that callers need not
      unfold the recursion five levels deep. */
  lemma JoinFive(p: seq<string>)
    requires |p| == 5
    ensures Text.Join(p, ";") == p[0] + ";" + p[1] + ";" + p[2] + ";" + p[3] + ";" + p[4]
  {
    assert p[4..][0] == p[4];
    assert p[3..][1..] == p[4..] && p[3..][0] == p[3];
    assert p[2..][1..] == p[3..] && p[2..][0] == p[2];
    assert p[1..][1..] == p[2..] && p[1..][0] == p[1];
    assert Text.Join(p[4..], ";") == p[4];
    assert Text.Join(p[3..], ";") == p[3] + ";" + p[4];
    assert Text.Join(p[2..], ";") == p[2] + ";" + (p[3] + ";" + p[4]);
    assert Text.Join(p[1..], ";") == p[1] + ";" + (p[2] + ";" + (p[3] + ";" + p[4]));
  }

  /** A name `getCookie` can find back once serialised: no `;`, no `=`, and no
      leading space. */
  predicate WellFormedName(n: string) {
    ';' !in n && '=' !in n && (|n| == 0 || n[0] != ' ')
  }

  /** `name=` is a prefix of `other=value` exactly when the names agree,
      so looking up `a` never matches `ab=1`. */
  lemma KeyPrefix(n: string, m: string, v: string)
    requires '=' !in n && '=' !in m
    ensures (n + "=" <= m + "=" + v) <==> n == m
  {
    var key := n + "=";
    var seg := m + "=" + v;
    if key <= seg {
      assert key[|n|] == '=';
      assert forall i :: 0 <= i < |m| ==> seg[i] == m[i];
      assert seg[|m|] == '=';
      assert forall i :: 0 <= i < |n| ==> key[i] == n[i];
    }
  }

  /** A stripped segment with no leading space is its own stripped form. */
  lemma StripNoLeadingSpace(c: string)
    requires |c| == 0 || c[0] != ' '
    ensures StripLeadingSpaces(c) == c
  {
  }

  lemma StripSpacePrefix(c: string)
    ensures StripLeadingSpaces(" " + c) == StripLeadingSpaces(c)
  {
    assert (" " + c)[1..] == c;
  }

  function Spaces(k: nat): (r: string)
    ensures |r| == k && forall i :: 0 <= i < k ==> r[i] == ' '
  {
    seq(k, i => ' ')
  }

  lemma StripSpaces(k: nat, c: string)
    requires |c| == 0 || c[0] != ' '
    ensures StripLeadingSpaces(Spaces(k) + c) == c
  {
    var s := Spaces(k) + c;
    assert forall i :: 0 <= i < k ==> s[i] == ' ';
    assert |c| > 0 ==> s[k] == c[0];
    assert s[k..] == c;
  }

  /** Only the spaces before the name are dropped: a one-pair cookie string
      yields its value verbatim, leading and trailing whitespace included. */
  lemma OnlyLeadingSpacesStripped(k: nat, name: string, value: string)
    requires WellFormedName(name) && ';' !in value
    ensures GetCookie(Spaces(k) + name + "=" + value, name) == Some(value)
  {
    var seg := Spaces(k) + name + "=" + value;
    assert ';' !in seg by {
      assert seg == Spaces(k) + (name + "=" + value);
    }
    SplitNoSeparator(seg);
    assert seg == Spaces(k) + (name + "=" + value);
    StripSpaces(k, name + "=" + value);
    FirstSegmentFinds(seg, name, value);
  }

  /** When the first segment strips to `name=v`, `getCookie(name)` yields `v`. */
  lemma FirstSegmentFinds(cookie: string, name: string, v: string)
    requires StripLeadingSpaces(Split(cookie)[0]) == name + "=" + v
    ensures GetCookie(cookie, name) == Some(v)
  {
    var segs := Split(cookie);
    assert name + "=" <= name + "=" + v;
    assert IsFirstMatch(segs, name + "=", 0);
    assert (name + "=" + v)[|name| + 1..] == v;
  }

  /** A cookie pair as the browser reports it. */
  datatype Pair = Pair(name: string, value: string)

  function PairText(p: Pair): string {
    p.name + "=" + p.value
  }

  function PairTexts(pairs: seq<Pair>): (r: seq<string>)
    ensures |r| == |pairs| && forall i :: 0 <= i < |pairs| ==> r[i] == PairText(pairs[i])
  {
    seq(|pairs|, i requires 0 <= i < |pairs| => PairText(pairs[i]))
  }

  /** The `document.cookie` form of a jar: pairs joined by `"; "`. */
  function Serialize(pairs: seq<Pair>): string {
    Text.Join(PairTexts(pairs), "; ")
  }

  predicate WellFormedJar(pairs: seq<Pair>) {
    && (forall i :: 0 <= i < |pairs| ==> WellFormedName(pairs[i].name) && ';' !in pairs[i].value)
    && (forall i, j :: 0 <= i < j < |pairs| ==> pairs[i].name != pairs[j].name)
  }

  lemma SplitLeadingSpace(x: string)
    ensures Split(" " + x) == [" " + Split(x)[0]] + Split(x)[1..]
  {
    assert (" " + x)[1..] == x;
  }

  /** A jar of two or more pairs is its first pair, `;`, a space, and the rest. */
  lemma SerializeCons(pairs: seq<Pair>)
    requires |pairs| >= 2
    ensures Serialize(pairs) == PairText(pairs[0]) + ";" + (" " + Serialize(pairs[1..]))
  {
    assert PairTexts(pairs) == [PairText(pairs[0])] + PairTexts(pairs[1..]);
    Text.JoinCons(PairText(pairs[0]), PairTexts(pairs[1..]), "; ");
  }

  lemma SplitCons(t: string, x: string)
    requires ';' !in t
    ensures Split(t + ";" + (" " + x)) == [t] + ([" " + Split(x)[0]] + Split(x)[1..])
  {
    SplitAfterPiece(t, " " + x);
    SplitLeadingSpace(x);
  }

  lemma PairTextNoSep(p: Pair)
    requires WellFormedName(p.name) && ';' !in p.value
    ensures ';' !in PairText(p) && StripLeadingSpaces(PairText(p)) == PairText(p)
  {
    var t := PairText(p);
    assert t == p.name + ("=" + p.value);
    StripNoLeadingSpace(t);
  }

  lemma StripAfterCons(t: string, tail: seq<string>)
    requires |tail| >= 1
    ensures var segs := [t] + ([" " + tail[0]] + tail[1..]);
            |segs| == |tail| + 1 && segs[0] == t
            && forall i :: 1 <= i < |segs| ==> StripLeadingSpaces(segs[i]) == StripLeadingSpaces(tail[i - 1])
  {
    var segs := [t] + ([" " + tail[0]] + tail[1..]);
    forall i | 1 <= i < |segs| ensures StripLeadingSpaces(segs[i]) == StripLeadingSpaces(tail[i - 1]) {
      if i == 1 {
        assert segs[1] == " " + tail[0];
        StripSpacePrefix(tail[0]);
      } else {
        assert segs[i] == tail[1..][i - 2] == tail[i - 1];
      }
    }
  }

  /** Each split piece of a serialised jar strips to its pair. */
  lemma {:induction false} SerializeSegments(pairs: seq<Pair>)
    requires |pairs| >= 1
    requires forall i :: 0 <= i < |pairs| ==> WellFormedName(pairs[i].name) && ';' !in pairs[i].value
    ensures |Split(Serialize(pairs))| == |pairs|
    ensures forall i :: 0 <= i < |pairs| ==> StripLeadingSpaces(Split(Serialize(pairs))[i]) == PairText(pairs[i])
    decreases |pairs|
  {
    var t := PairText(pairs[0]);
    PairTextNoSep(pairs[0]);
    if |pairs| == 1 {
      SplitNoSeparator(t);
      assert PairTexts(pairs) == [t];
    } else {
      var rest := pairs[1..];
      var x := Serialize(rest);
      SerializeCons(pairs);
      SplitCons(t, x);
      SerializeSegments(rest);
      StripAfterCons(t, Split(x));
    }
  }

  /** Round trip: in a jar of distinct well-formed names, `getCookie` finds each
      pair's value. */
  lemma GetCookieRoundTrip(pairs: seq<Pair>, k: int)
    requires WellFormedJar(pairs)
    requires 0 <= k < |pairs|
    ensures GetCookie(Serialize(pairs), pairs[k].name) == Some(pairs[k].value)
  {
    SerializeSegments(pairs);
    var segs := Split(Serialize(pairs));
    var n := pairs[k].name;
    forall i | 0 <= i < |pairs| ensures Matches(segs[i], n + "=") <==> i == k {
      KeyPrefix(n, pairs[i].name, pairs[i].value);
    }
    assert IsFirstMatch(segs, n + "=", k);
    assert PairText(pairs[k])[|n| + 1..] == pairs[k].value;
  }

  /** A cookie string with no pairs yields null for every name. */
  lemma GetCookieEmpty(name: string)
    ensures GetCookie("", name) == None
  {
    assert Split("") == [""];
  }

  /** Reading back the string `setCookie` writes finds the value it wrote,
      empty for a null or empty value. */
  lemma SetThenGet(name: string, value: Option<string>, seconds: int, nowMs: int, toUtc: int -> string)
    requires WellFormedName(name) && ';' !in value.GetOr("")
    requires ';' !in toUtc(ExpiryMs(nowMs, seconds))
    ensures GetCookie(SetCookie(name, value, seconds, nowMs, toUtc), name) == Some(value.GetOr(""))
  {
    SetCookieSegments(name, value, seconds, nowMs, toUtc);
    var seg := name + "=" + value.GetOr("");
    StripNoLeadingSpace(seg);
    FirstSegmentFinds(SetCookie(name, value, seconds, nowMs, toUtc), name, value.GetOr(""));
  }

  /** Reading back the string `eraseCookie` writes finds an empty value. */
  lemma EraseThenGet(name: string)
    requires WellFormedName(name)
    ensures GetCookie(EraseCookie(name), name) == Some("")
  {
    EraseCookieSegments(name);
    StripNoLeadingSpace(name + "=");
    assert name + "=" + "" == name + "=";
    FirstSegmentFinds(EraseCookie(name), name, "");
  }
}
