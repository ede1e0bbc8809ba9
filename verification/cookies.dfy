/** src/lib/cookieUtils.ts: the `name=value; name2=value2` cookie string of
    section 5.4 of RFC 6265, read by `getCookie` and written one cookie at a
    time by `setCookie`.

    `document` is a parameter: `None` is the server side, where
    `typeof document === 'undefined'`. The browser's cookie store, which
    turns the strings `setCookie` assigns into the string `getCookie` reads,
    is modelled as a list of name/value pairs in creation order; a cookie
    written with an expiry already past removes its name from it. */
module Cookies {
  import opened Wrappers
  import opened JsBuiltins

  // ---------------------------------------------------------------------
  // getCookie

  /** The `while (c.charAt(0) === ' ')` loop: leading spaces, and only
      spaces, removed. */
  function StripLeadingSpaces(c: string): (r: string)
    ensures r == "" || r[0] != ' '
    decreases |c|
  {
    if |c| > 0 && c[0] == ' ' then StripLeadingSpaces(c[1..]) else c
  }

  /** What the strip removes is a run of spaces, and what it keeps is the
      rest of the entry. */
  lemma {:induction false} StripRemovesSpaces(c: string)
    ensures var r := StripLeadingSpaces(c);
            && |r| <= |c| && r == c[|c| - |r|..]
            && forall i :: 0 <= i < |c| - |r| ==> c[i] == ' '
    decreases |c|
  {
    if |c| > 0 && c[0] == ' ' {
      StripRemovesSpaces(c[1..]);
    }
  }

  /** The entry, stripped, starts with `name=` (`indexOf(nameEQ) === 0`). */
  predicate EntryMatches(entry: string, name: string) {
    StartsWith(StripLeadingSpaces(entry), name + "=")
  }

  /** What follows `name=` in a matching entry. */
  function EntryValue(entry: string, name: string): (v: string)
    requires EntryMatches(entry, name)
    ensures ';' !in entry ==> ';' !in v
  {
    var stripped := StripLeadingSpaces(entry);
    StripRemovesSpaces(entry);
    NoSeparatorInSuffix(entry, stripped, |name| + 1);
    stripped[|name| + 1..]
  }

  /** Entry `i` is the first entry that matches. */
  predicate IsFirstMatch(ca: seq<string>, name: string, i: int) {
    && 0 <= i < |ca| && EntryMatches(ca[i], name)
    && forall j :: 0 <= j < i ==> !EntryMatches(ca[j], name)
  }

  /** The `for` loop over the entries: the index of the first matching
      entry, or none when no entry matches. */
  function FirstMatch(ca: seq<string>, name: string): (r: Option<nat>)
    ensures r.None? <==> forall i :: 0 <= i < |ca| ==> !EntryMatches(ca[i], name)
    ensures r.Some? ==> IsFirstMatch(ca, name, r.value)
    decreases |ca|
  {
    if |ca| == 0 then None
    else if EntryMatches(ca[0], name) then Some(0)
    else
      assert forall j :: 1 <= j < |ca| ==> ca[j] == ca[1..][j - 1];
      match FirstMatch(ca[1..], name)
      case None => None
      case Some(i) => Some(i + 1)
  }

  /** `getCookie`: `null` without a document; otherwise what follows
      `name=` in the first entry of the cookie string, split on ';', that
      starts with it. A value never holds a ';'. */
  function GetCookie(documentCookie: Option<string>, name: string): (r: Option<string>)
    ensures documentCookie.None? ==> r.None?
    ensures r.Some? ==> ';' !in r.value
  {
    match documentCookie
    case None => None
    case Some(cookie) =>
      var ca := Split(cookie, ';');
      match FirstMatch(ca, name)
      case None => None
      case Some(i) => Some(EntryValue(ca[i], name))
  }

  /** With a document, `getCookie` answers `null` exactly when no entry
      matches, and otherwise the value of the first entry that does. */
  lemma GetCookieFindsFirst(cookie: string, name: string)
    ensures GetCookie(Some(cookie), name).None? ==>
              forall i :: 0 <= i < |Split(cookie, ';')| ==> !EntryMatches(Split(cookie, ';')[i], name)
    ensures (forall i :: 0 <= i < |Split(cookie, ';')| ==> !EntryMatches(Split(cookie, ';')[i], name)) ==>
              GetCookie(Some(cookie), name).None?
    ensures GetCookie(Some(cookie), name).Some? ==>
              exists i :: && IsFirstMatch(Split(cookie, ';'), name, i)
                          && GetCookie(Some(cookie), name).value == EntryValue(Split(cookie, ';')[i], name)
  {
    var ca := Split(cookie, ';');
    match FirstMatch(ca, name)
    case None =>
    case Some(k) =>
      assert IsFirstMatch(ca, name, k);
  }

  /** A suffix of a suffix of a ';'-free entry is ';'-free. */
  lemma NoSeparatorInSuffix(entry: string, stripped: string, from: nat)
    requires |stripped| <= |entry| && stripped == entry[|entry| - |stripped|..]
    requires from <= |stripped|
    ensures ';' !in entry ==> ';' !in stripped[from..]
  {
    if ';' !in entry {
      forall k | from <= k < |stripped|
        ensures stripped[k] != ';'
      {
        assert stripped[k] == entry[|entry| - |stripped| + k];
      }
    }
  }

  /** A cookie whose name ends with, or merely contains, the wanted name is
      not taken for it, and the first exact name wins. */
  lemma OnlyExactNamesMatch()
    ensures GetCookie(Some("myname=1; name2=2; name=3"), "name") == Some("3")
  {
    var t := " name2=2" + [';'] + " name=3";
    assert "myname=1; name2=2; name=3" == "myname=1" + [';'] + t;
    LongerNamesDoNotMatch();
    ExactNameMatches();
    FirstEntry("myname=1", t, "name");
    FirstEntry(" name2=2", " name=3", "name");
    OneEntry(" name=3", "name");
  }

  lemma LongerNamesDoNotMatch()
    ensures !EntryMatches("myname=1", "name") && !EntryMatches(" name2=2", "name")
  {
    assert "myname=1"[..5][0] == 'm' != "name="[0];
    assert StripLeadingSpaces(" name2=2") == "name2=2";
    assert "name2=2"[..5][4] == '2' != "name="[4];
  }

  lemma ExactNameMatches()
    ensures EntryMatches(" name=3", "name") && EntryValue(" name=3", "name") == "3"
  {
    assert StripLeadingSpaces(" name=3") == "name=3";
    assert "name=3"[..5] == "name=";
  }

  /** A cookie set to the empty value reads back as "", not as `null`. */
  lemma EmptyValueIsNotMissing()
    ensures GetCookie(Some("name="), "name") == Some("")
    ensures GetCookie(Some(""), "name") == None
  {
    SplitAfterPart("name=", ';', "");
    SplitAfterPart("", ';', "");
    assert "name=" == "name" + "=";
  }

  // ---------------------------------------------------------------------
  // setCookie

  /** The string `setCookie` assigns to `document.cookie`, or `None` when
      there is no document. `days` is truthy when non-zero; the expiry date
      of a truthy `days` comes in already formatted as `utcExpiry`. `value`
      `None` stands for the falsy values `value || ""` replaces. */
  function SetCookieString(hasDocument: bool, name: string, value: Option<string>, days: int, utcExpiry: string): (r: Option<string>)
    ensures !hasDocument <==> r.None?
    ensures hasDocument && days == 0 && ';' !in name && ';' !in value.GetOr("") ==>
              Split(r.value, ';') == [name + "=" + value.GetOr(""), " path=/"]
    ensures hasDocument && days != 0 && ';' !in name && ';' !in value.GetOr("") && ';' !in utcExpiry ==>
              Split(r.value, ';') == [name + "=" + value.GetOr(""), " expires=" + utcExpiry, " path=/"]
  {
    if !hasDocument then None
    else
      var pair := name + "=" + value.GetOr("");
      var expires := if days != 0 then "; expires=" + utcExpiry else "";
      SetCookieParts(pair, days, utcExpiry);
      Some(pair + expires + "; path=/")
  }

  /** How the assigned string splits on ';' when its parts hold none. */
  lemma SetCookieParts(pair: string, days: int, utcExpiry: string)
    ensures ';' !in pair && days == 0 ==>
              Split(pair + "" + "; path=/", ';') == [pair, " path=/"]
    ensures ';' !in pair && days != 0 && ';' !in utcExpiry ==>
              Split(pair + ("; expires=" + utcExpiry) + "; path=/", ';') == [pair, " expires=" + utcExpiry, " path=/"]
  {
    if ';' !in pair {
      if days == 0 {
        assert pair + "" + "; path=/" == pair + "; path=/";
        PathOnlyParts(pair);
      } else if ';' !in utcExpiry {
        ExpiresShape(pair, utcExpiry);
        ExpiresParts(pair, utcExpiry);
      }
    }
  }

  lemma PathOnlyParts(pair: string)
    requires ';' !in pair
    ensures Split(pair + "; path=/", ';') == [pair, " path=/"]
  {
    assert pair + "; path=/" == pair + [';'] + " path=/" by {
      assert "; path=/" == [';'] + " path=/";
    }
    SplitAfterPart(" path=/", ';', "");
    SplitAfterPart(pair, ';', " path=/");
  }

  lemma ExpiresShape(pair: string, utcExpiry: string)
    ensures pair + ("; expires=" + utcExpiry) + "; path=/" == pair + [';'] + (" expires=" + utcExpiry + [';'] + " path=/")
  {
    var e := " expires=" + utcExpiry;
    assert "; expires=" + utcExpiry == [';'] + e by {
      assert "; expires=" == [';'] + " expires=";
    }
    assert "; path=/" == [';'] + " path=/";
    var rest := e + [';'] + " path=/";
    assert ("; expires=" + utcExpiry) + "; path=/" == [';'] + rest;
  }

  lemma ExpiresParts(pair: string, utcExpiry: string)
    requires ';' !in pair && ';' !in utcExpiry
    ensures Split(pair + [';'] + (" expires=" + utcExpiry + [';'] + " path=/"), ';') == [pair, " expires=" + utcExpiry, " path=/"]
  {
    var e := " expires=" + utcExpiry;
    assert ';' !in e;
    SplitAfterPart(" path=/", ';', "");
    SplitAfterPart(e, ';', " path=/");
    SplitAfterPart(pair, ';', e + [';'] + " path=/");
  }

  // ---------------------------------------------------------------------
  // The browser's cookie store

  datatype Cookie = Cookie(name: string, value: string)

  /** `name=value` as the cookie string shows it. */
  function Pair(c: Cookie): string {
    c.name + "=" + c.value
  }

  /** A cookie whose pair survives the cookie string: a non-empty name free
      of '=', ';' and a leading space, and a value free of ';'. */
  predicate Valid(c: Cookie) {
    c.name != "" && c.name[0] != ' ' && '=' !in c.name && ';' !in c.name && ';' !in c.value
  }

  /** `document.cookie`: the pairs in order, separated by "; " (section 5.4
      of RFC 6265). */
  function CookieString(jar: seq<Cookie>): string
    decreases |jar|
  {
    if |jar| == 0 then ""
    else if |jar| == 1 then Pair(jar[0])
    else Pair(jar[0]) + "; " + CookieString(jar[1..])
  }

  /** The reference lookup on the store: the value of the first cookie with
      that name. */
  function Lookup(jar: seq<Cookie>, name: string): (r: Option<string>)
    ensures r.None? <==> forall i :: 0 <= i < |jar| ==> jar[i].name != name
    decreases |jar|
  {
    if |jar| == 0 then None
    else if jar[0].name == name then Some(jar[0].value)
    else
      assert forall j :: 1 <= j < |jar| ==> jar[j] == jar[1..][j - 1];
      Lookup(jar[1..], name)
  }

  /** The first `name=value` of a Set-Cookie string, split at its first '='
      (section 5.2 of RFC 6265); `None` without a '='. */
  function ParseSetCookie(s: string): (r: Option<Cookie>)
    ensures r.Some? ==> Pair(r.value) == Split(s, ';')[0] && '=' !in r.value.name
    ensures r.None? <==> '=' !in Split(s, ';')[0]
  {
    var pair := Split(s, ';')[0];
    match FirstIndexOf(pair, '=')
    case None => None
    case Some(i) =>
      assert pair == pair[..i] + "=" + pair[i + 1..];
      Some(Cookie(pair[..i], pair[i + 1..]))
  }

  /** The index of the first `ch` in `s`. */
  function FirstIndexOf(s: string, ch: char): (r: Option<nat>)
    ensures r.None? <==> ch !in s
    ensures r.Some? ==> r.value < |s| && s[r.value] == ch && ch !in s[..r.value]
    decreases |s|
  {
    if |s| == 0 then None
    else if s[0] == ch then Some(0)
    else
      match FirstIndexOf(s[1..], ch)
      case None => None
      case Some(i) =>
        assert s[..i + 1] == [s[0]] + s[1..][..i];
        Some(i + 1)
  }

  /** Storing a cookie: it replaces the first cookie with its name, or is
      appended when there is none. */
  function Store(jar: seq<Cookie>, c: Cookie): (r: seq<Cookie>)
    ensures Lookup(r, c.name) == Some(c.value)
    ensures forall n :: n != c.name ==> Lookup(r, n) == Lookup(jar, n)
    ensures (forall i :: 0 <= i < |jar| ==> Valid(jar[i])) && Valid(c) ==> forall i :: 0 <= i < |r| ==> Valid(r[i])
    decreases |jar|
  {
    if |jar| == 0 then [c]
    else if jar[0].name == c.name then [c] + jar[1..]
    else
      var rest := Store(jar[1..], c);
      assert ([jar[0]] + rest)[1..] == rest;
      assert forall j :: 1 <= j < |jar| ==> jar[j] == jar[1..][j - 1];
      [jar[0]] + rest
  }

  /** Removing every cookie with a name: what the browser does with a cookie
      whose expiry date is already past (section 5.3 of RFC 6265, step 11
      and the eviction of expired cookies). */
  function Expire(jar: seq<Cookie>, name: string): (r: seq<Cookie>)
    ensures Lookup(r, name).None?
    ensures forall n :: n != name ==> Lookup(r, n) == Lookup(jar, n)
    ensures forall i :: 0 <= i < |r| ==> r[i] in jar
    decreases |jar|
  {
    if |jar| == 0 then []
    else
      var rest := Expire(jar[1..], name);
      assert forall j :: 1 <= j < |jar| ==> jar[j] == jar[1..][j - 1];
      if jar[0].name == name then rest
      else
        assert ([jar[0]] + rest)[1..] == rest;
        [jar[0]] + rest
  }

  /** What the browser's store becomes when `setCookie(name, value, days)`
      assigns its string. `days` counts whole days: 0 gives a session
      cookie, a positive count an expiry in the future, a negative count an
      expiry at least a day in the past, which removes the cookie. */
  function AfterSetCookie(jar: seq<Cookie>, name: string, value: string, days: int): (r: seq<Cookie>)
    ensures Lookup(r, name) == (if days < 0 then None else Some(value))
    ensures forall n :: n != name ==> Lookup(r, n) == Lookup(jar, n)
    ensures (forall i :: 0 <= i < |jar| ==> Valid(jar[i])) && Valid(Cookie(name, value)) ==>
              forall i :: 0 <= i < |r| ==> Valid(r[i])
  {
    if days < 0 then Expire(jar, name) else Store(jar, Cookie(name, value))
  }

  // ---------------------------------------------------------------------
  // Reading the store back

  /** Leading spaces in front of an entry that starts with something else
      are all stripped. */
  lemma {:induction false} StripSpacesBefore(lead: string, s: string)
    requires forall i :: 0 <= i < |lead| ==> lead[i] == ' '
    requires s != "" && s[0] != ' '
    ensures StripLeadingSpaces(lead + s) == s
    decreases |lead|
  {
    if |lead| > 0 {
      assert (lead + s)[1..] == lead[1..] + s;
      StripSpacesBefore(lead[1..], s);
    } else {
      assert lead + s == s;
    }
  }

  /** The entry of a valid cookie, behind any spaces, matches exactly its own
      name, when the name asked for has no '='; its value is the cookie's. */
  lemma {:induction false} PairMatches(lead: string, c: Cookie, name: string)
    requires forall i :: 0 <= i < |lead| ==> lead[i] == ' '
    requires Valid(c) && '=' !in name
    ensures EntryMatches(lead + Pair(c), name) <==> c.name == name
    ensures c.name == name ==> EntryValue(lead + Pair(c), name) == c.value
  {
    var p := Pair(c);
    StripSpacesBefore(lead, p);
    assert StripLeadingSpaces(lead + p) == p;
    var eq := name + "=";
    assert |name| < |c.name| ==> p[|name|] == c.name[|name|] != '=';
    assert |name| > |c.name| ==> p[|c.name|] == '=' != name[|c.name|] == eq[|c.name|];
    assert StartsWith(p, eq) ==> |name| == |c.name| && c.name == p[..|name|] == eq[..|name|] == name;
    if c.name == name {
      assert p[..|eq|] == eq;
      assert p[|name| + 1..] == c.value;
    }
  }

  /** A cookie string made of one entry. */
  lemma OneEntry(entry: string, name: string)
    requires ';' !in entry
    ensures GetCookie(Some(entry), name) == if EntryMatches(entry, name) then Some(EntryValue(entry, name)) else None
  {
    SplitAfterPart(entry, ';', "");
  }

  /** The first entry of a cookie string answers if it matches; otherwise
      the rest of the string does. */
  lemma FirstEntry(entry: string, tail: string, name: string)
    requires ';' !in entry
    ensures GetCookie(Some(entry + [';'] + tail), name) ==
              if EntryMatches(entry, name) then Some(EntryValue(entry, name)) else GetCookie(Some(tail), name)
  {
    SplitAfterPart(entry, ';', tail);
    var ca := Split(entry + [';'] + tail, ';');
    assert ca[1..] == Split(tail, ';');
  }

  /** Looking a name up in the cookie string of a store, behind any spaces,
      gives the store's own lookup. */
  lemma {:induction false} FindInStore(lead: string, jar: seq<Cookie>, name: string)
    requires forall i :: 0 <= i < |lead| ==> lead[i] == ' '
    requires forall i :: 0 <= i < |jar| ==> Valid(jar[i])
    requires '=' !in name
    ensures GetCookie(Some(lead + CookieString(jar)), name) == Lookup(jar, name)
    decreases |jar|
  {
    if |jar| == 0 {
      assert lead + CookieString(jar) == lead;
      OneEntry(lead, name);
      StripRemovesSpaces(lead);
    } else {
      var c := jar[0];
      var entry := lead + Pair(c);
      assert ';' !in entry;
      PairMatches(lead, c, name);
      if |jar| == 1 {
        assert lead + CookieString(jar) == entry;
        OneEntry(entry, name);
      } else {
        var tail := " " + CookieString(jar[1..]);
        assert lead + CookieString(jar) == entry + [';'] + tail;
        FirstEntry(entry, tail, name);
        FindInStore(" ", jar[1..], name);
      }
    }
  }

  /** `getCookie` over the cookie string of a store of valid cookies answers
      as the store does. */
  lemma GetCookieReadsStore(jar: seq<Cookie>, name: string)
    requires forall i :: 0 <= i < |jar| ==> Valid(jar[i])
    requires '=' !in name
    ensures GetCookie(Some(CookieString(jar)), name) == Lookup(jar, name)
  {
    FindInStore("", jar, name);
    assert "" + CookieString(jar) == CookieString(jar);
  }

  /** The browser reads back, from the string `setCookie` assigns, the
      cookie it was given, whatever the expiry. */
  lemma SetCookieParsesBack(name: string, value: string, days: int, utcExpiry: string)
    requires Valid(Cookie(name, value)) && ';' !in utcExpiry
    ensures ParseSetCookie(SetCookieString(true, name, Some(value), days, utcExpiry).value) == Some(Cookie(name, value))
  {
    var c := Cookie(name, value);
    var written := SetCookieString(true, name, Some(value), days, utcExpiry).value;
    assert Split(written, ';')[0] == Pair(c);
    assert Pair(c)[|name|] == '=' && '=' !in Pair(c)[..|name|];
    assert FirstIndexOf(Pair(c), '=') == Some(|name|);
    assert Pair(c)[..|name|] == name && Pair(c)[|name| + 1..] == value;
  }

  /** The round trip: a cookie set with a valid name and value is read back
      by the next `getCookie` unless `days` is negative, when its expiry is
      past and the next `getCookie` finds nothing; every other name reads as
      before. */
  lemma SetThenGet(jar: seq<Cookie>, name: string, value: string, days: int, utcExpiry: string, other: string)
    requires forall i :: 0 <= i < |jar| ==> Valid(jar[i])
    requires Valid(Cookie(name, value)) && ';' !in utcExpiry
    requires '=' !in other && other != name
    ensures ParseSetCookie(SetCookieString(true, name, Some(value), days, utcExpiry).value) == Some(Cookie(name, value))
    ensures GetCookie(Some(CookieString(AfterSetCookie(jar, name, value, days))), name)
              == (if days < 0 then None else Some(value))
    ensures GetCookie(Some(CookieString(AfterSetCookie(jar, name, value, days))), other) == GetCookie(Some(CookieString(jar)), other)
  {
    SetCookieParsesBack(name, value, days, utcExpiry);
    var after := AfterSetCookie(jar, name, value, days);
    GetCookieReadsStore(after, name);
    GetCookieReadsStore(after, other);
    GetCookieReadsStore(jar, other);
  }
}
