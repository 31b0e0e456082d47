/** The supported locales and `getLocale`: the `locale` cookie, French by default. */
module I18nConfig {
  import opened Wrappers
  import opened JsText
  import opened Seqs

  datatype Locale = En | Fr | Nl {
    function Code(): string {
      match this
      case En => "en"
      case Fr => "fr"
      case Nl => "nl"
    }
  }

  /** `locales`, in declaration order. */
  const Locales: seq<Locale> := [En, Fr, Nl]

  const DefaultLocale: Locale := Fr

  /** `locales.includes(code)`, returning the matching locale. */
  function FromCode(code: string): (r: Option<Locale>)
    ensures r.Some? ==> r.value.Code() == code && r.value in Locales
    ensures r.None? ==> forall l: Locale :: l.Code() != code
  {
    if code == "en" then Some(En)
    else if code == "fr" then Some(Fr)
    else if code == "nl" then Some(Nl)
    else None
  }

  lemma FromCodeOfCode(l: Locale)
    ensures FromCode(l.Code()) == Some(l)
  {
  }

  /** `c.trim().startsWith('locale=')` */
  predicate IsLocaleEntry(entry: string) {
    StartsWith(Trim(entry), "locale=")
  }

  /** The index of the first locale entry, or `|entries|` when there is none (`find`). */
  function FindLocaleEntry(entries: seq<string>): (i: nat)
    ensures i <= |entries|
    ensures i < |entries| ==> IsLocaleEntry(entries[i])
    ensures forall k :: 0 <= k < i ==> !IsLocaleEntry(entries[k])
  {
    FirstWhere(entries, IsLocaleEntry)
  }

  /** `document.cookie.split(';').find(...)?.split('=')[1]`: the text between the first and
      second `=` of the first locale entry; `None` is undefined. */
  function CookieLocaleValue(cookie: string): Option<string> {
    var entries := Split(cookie, ';');
    var i := FindLocaleEntry(entries);
    if i == |entries| then None
    else
      var parts := Split(entries[i], '=');
      if |parts| >= 2 then Some(parts[1]) else None
  }

  /** A locale entry always holds an `=`, so its value is never undefined. */
  lemma LocaleEntryHasValue(cookie: string)
    requires FindLocaleEntry(Split(cookie, ';')) < |Split(cookie, ';')|
    ensures CookieLocaleValue(cookie).Some?
    ensures '=' !in CookieLocaleValue(cookie).value
  {
    var entries := Split(cookie, ';');
    var i := FindLocaleEntry(entries);
    LocaleEntryHasEquals(entries[i]);
    var parts := Split(entries[i], '=');
    assert CookieLocaleValue(cookie) == Some(parts[1]);
    assert parts[1] in parts;
  }

  /** A locale entry splits on `=` into at least two pieces. */
  lemma LocaleEntryHasEquals(e: string)
    requires IsLocaleEntry(e)
    ensures |Split(e, '=')| >= 2
  {
    var t := Trim(e);
    var start := |e| - |TrimStart(e)|;
    assert t[..7] == "locale=";
    assert t[6] == '=';
    assert e[start + 6] == '=';
    SplitAtSeparator(e, '=', start + 6);
  }

  lemma {:induction false} SplitAtSeparator(s: string, c: char, k: nat)
    requires k < |s| && s[k] == c
    ensures |Split(s, c)| >= 2
  {
    assert IndexOf(s, c) <= k;
  }

  /** `getLocale`: French without a window; otherwise the cookie's locale when it is supported. */
  function GetLocale(hasWindow: bool, cookie: string): (l: Locale)
    ensures !hasWindow ==> l == Fr
    ensures hasWindow && CookieLocaleValue(cookie).Some? && FromCode(CookieLocaleValue(cookie).value).Some?
            ==> l.Code() == CookieLocaleValue(cookie).value
    ensures hasWindow && (CookieLocaleValue(cookie).None? || FromCode(CookieLocaleValue(cookie).value).None?)
            ==> l == Fr
  {
    if !hasWindow then DefaultLocale
    else
      match CookieLocaleValue(cookie)
      case Some(v) => (if FromCode(v).Some? then FromCode(v).value else DefaultLocale)
      case None => DefaultLocale
  }

  /** The cookie `setLocale` writes, as the browser later reports it ahead of other cookies,
      reads back as the locale that was set. */
  lemma {:induction false} CookieRoundTrip(l: Locale, rest: string)
    ensures GetLocale(true, "locale=" + l.Code() + ";" + rest) == l
  {
    LocaleEntryValue(l);
    EntryHasNoSemicolon(l);
    RoundTripVia(l, "locale=" + l.Code(), rest);
  }

  lemma RoundTripVia(l: Locale, entry: string, rest: string)
    requires ';' !in entry && IsLocaleEntry(entry)
    requires Split(entry, '=') == ["locale", l.Code()]
    ensures GetLocale(true, entry + ";" + rest) == l
  {
    FirstEntryValue(entry, rest);
    FromCodeOfCode(l);
  }

  lemma EntryHasNoSemicolon(l: Locale)
    ensures ';' !in "locale=" + l.Code()
  {
    var entry := "locale=" + l.Code();
    assert forall i :: 0 <= i < |entry| ==> entry[i] != ';' by {
      match l
      case En => assert entry == "locale=en";
      case Fr => assert entry == "locale=fr";
      case Nl => assert entry == "locale=nl";
    }
  }

  /** The value of a cookie string whose first entry is a locale entry. */
  lemma {:induction false} FirstEntryValue(entry: string, rest: string)
    requires ';' !in entry && IsLocaleEntry(entry)
    ensures CookieLocaleValue(entry + ";" + rest)
            == (if |Split(entry, '=')| >= 2 then Some(Split(entry, '=')[1]) else None)
  {
    FirstEntry(entry, rest);
    var entries := Split(entry + ";" + rest, ';');
    assert IsLocaleEntry(entries[0]);
    assert FindLocaleEntry(entries) == 0;
  }

  lemma {:induction false} FirstEntry(entry: string, rest: string)
    requires ';' !in entry
    ensures Split(entry + ";" + rest, ';')[0] == entry
  {
    IndexOfAfter(entry, rest, ';');
    assert entry + ";" + rest == entry + [';'] + rest;
    assert (entry + [';'] + rest)[..|entry|] == entry;
  }

  lemma {:induction false} LocaleEntryValue(l: Locale)
    ensures IsLocaleEntry("locale=" + l.Code())
    ensures Split("locale=" + l.Code(), '=') == ["locale", l.Code()]
  {
    var code := l.Code();
    assert code != [] && '=' !in code && !IsSpace(code[|code| - 1]);
    CodeEntry(code);
  }

  lemma {:induction false} CodeEntry(code: string)
    requires code != [] && '=' !in code && !IsSpace(code[|code| - 1])
    ensures IsLocaleEntry("locale=" + code)
    ensures Split("locale=" + code, '=') == ["locale", code]
  {
    var entry := "locale=" + code;
    assert entry[..7] == "locale=";
    assert !IsSpace(entry[0]) && !IsSpace(entry[|entry| - 1]);
    TrimOfTrimmed(entry);
    assert Trim(entry) == entry;
    assert StartsWith(entry, "locale=");
    assert entry == "locale" + "=" + code;
    LocaleEntrySplit("locale", code);
  }

  lemma {:induction false} LocaleEntrySplit(name: string, value: string)
    requires '=' !in name && '=' !in value
    ensures Split(name + "=" + value, '=') == [name, value]
  {
    var pieces := [name, value];
    assert pieces[1..] == [value];
    assert name + "=" + value == pieces[0] + ['='] + pieces[1];
    SplitJoin(pieces, '=');
  }
}
