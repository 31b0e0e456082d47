/**
 * `LocaleProvider`: the message catalogs, the dotted-key lookup with its English and
 * echo-the-key fallbacks, `{name}` placeholder interpolation, and the provider state
 * (the active locale and the cookie it writes).
 */
module Translation {
  import opened Wrappers
  import opened JsText
  import opened I18nConfig
  import opened Seqs

  /** A parsed catalog value: a string, an object of children, or anything else
      (a number, an array, `null`). */
  datatype Message = Text(text: string) | Branch(children: map<string, Message>) | Scalar

  /** The three message files. */
  datatype Catalogs = Catalogs(en: Message, fr: Message, nl: Message) {
    /** `messages[locale]` */
    function For(l: Locale): Message {
      match l
      case En => en
      case Fr => fr
      case Nl => nl
    }
  }

  /** `value?.[k]`: a child of an object, undefined otherwise. */
  function Step(value: Option<Message>, k: string): (r: Option<Message>)
    ensures r.Some? <==> value.Some? && value.value.Branch? && k in value.value.children
    ensures r.Some? ==> r.value == value.value.children[k]
  {
    match value
    case Some(Branch(children)) => if k in children then Some(children[k]) else None
    case _ => None
  }

  /** The `for (const k of keys)` walk, one key at a time from the front. */
  function Walk(value: Option<Message>, keys: seq<string>): Option<Message>
    decreases |keys|
  {
    if keys == [] then value else Walk(Step(value, keys[0]), keys[1..])
  }

  /** Walking a path in two legs is walking it at once. */
  lemma {:induction false} WalkAppend(value: Option<Message>, a: seq<string>, b: seq<string>)
    ensures Walk(value, a + b) == Walk(Walk(value, a), b)
    decreases |a|
  {
    if a == [] {
      assert a + b == b;
    } else {
      assert (a + b)[1..] == a[1..] + b;
      WalkAppend(Step(value, a[0]), a[1..], b);
    }
  }

  /** Once the walk falls off the tree it stays undefined. */
  lemma {:induction false} WalkUndefined(keys: seq<string>)
    ensures Walk(None, keys) == None
    decreases |keys|
  {
    if keys != [] {
      WalkUndefined(keys[1..]);
    }
  }

  /** The string at the dotted `key` of a catalog, if that is where a string is. */
  function ResolveText(root: Message, key: string): Option<string> {
    match Walk(Some(root), Split(key, '.'))
    case Some(Text(s)) => Some(s)
    case _ => None
  }

  /** A key naming a nested string through one object resolves to that string. */
  lemma NestedKey(section: string, name: string, s: string, root: map<string, Message>, inner: map<string, Message>)
    requires '.' !in section && '.' !in name
    requires section in root && root[section] == Branch(inner)
    requires name in inner && inner[name] == Text(s)
    ensures ResolveText(Branch(root), section + "." + name) == Some(s)
  {
    var pieces := [section, name];
    assert pieces[1..] == [name];
    assert Join(pieces, '.') == section + "." + name;
    SplitJoin(pieces, '.');
    assert Split(section + "." + name, '.') == pieces;
    assert Step(Some(Branch(root)), section) == Some(Branch(inner));
    assert Walk(Some(Branch(root)), pieces) == Walk(Some(Branch(inner)), pieces[1..]);
    assert Step(Some(Branch(inner)), name) == Some(Text(s));
    assert [name][1..] == [];
    assert Walk(Some(Branch(inner)), [name]) == Walk(Some(Text(s)), []);
  }

  /** The value `t` starts from: the active locale's string, else the English one, else the key. */
  function Lookup(c: Catalogs, l: Locale, key: string): (r: string)
    ensures ResolveText(c.For(l), key).Some? ==> r == ResolveText(c.For(l), key).value
    ensures ResolveText(c.For(l), key).None? && ResolveText(c.en, key).Some? ==> r == ResolveText(c.en, key).value
    ensures ResolveText(c.For(l), key).None? && ResolveText(c.en, key).None? ==> r == key
  {
    match ResolveText(c.For(l), key)
    case Some(s) => s
    case None =>
      match ResolveText(c.en, key)
      case Some(s) => s
      case None => key
  }

  /** A key that names an object rather than a string in both catalogs echoes the key. */
  lemma SubtreeKeyEchoes(c: Catalogs, l: Locale, key: string)
    requires Walk(Some(c.For(l)), Split(key, '.')).Some? && !Walk(Some(c.For(l)), Split(key, '.')).value.Text?
    requires Walk(Some(c.en), Split(key, '.')).Some? && !Walk(Some(c.en), Split(key, '.')).value.Text?
    ensures Lookup(c, l, key) == key
  {
  }

  /** In English there is nowhere further to fall back to. */
  lemma EnglishFallsBackToKey(c: Catalogs, key: string)
    ensures ResolveText(c.en, key).None? ==> Lookup(c, En, key) == key
    ensures ResolveText(c.en, key).Some? ==> Lookup(c, En, key) == ResolveText(c.en, key).value
  {
  }

  // ---------------------------------------------------------------------------
  // placeholders

  /** `\w`: a letter, a digit or `_`. */
  predicate IsWordChar(c: char) {
    ('a' <= c <= 'z') || ('A' <= c <= 'Z') || ('0' <= c <= '9') || c == '_'
  }

  /** The length of the run of word characters `s` starts with. */
  function WordRun(s: string): (n: nat)
    ensures n <= |s|
    ensures forall i :: 0 <= i < n ==> IsWordChar(s[i])
    ensures n < |s| ==> !IsWordChar(s[n])
  {
    if s != [] && IsWordChar(s[0]) then 1 + WordRun(s[1..]) else 0
  }

  /** The length of the `{name}` match of `/\{(\w+)\}/` at the start of `s`, or 0 when the
      regular expression does not match there. */
  function PlaceholderLength(s: string): (n: nat)
    ensures n <= |s|
    ensures n > 0 ==> n >= 3 && s[0] == '{' && s[n - 1] == '}'
    ensures n > 0 ==> forall i :: 1 <= i < n - 1 ==> IsWordChar(s[i])
    ensures s != [] && s[0] != '{' ==> n == 0
  {
    if s != [] && s[0] == '{' then
      var w := WordRun(s[1..]);
      if w > 0 && 1 + w < |s| && s[1 + w] == '}' then w + 2 else 0
    else 0
  }

  /** What replaces one match: the parameter's text, unless it is missing or empty. */
  function Replacement(name: string, params: map<string, string>, whole: string): string {
    if name in params && params[name] != "" then params[name] else whole
  }

  /** `value.replace(/\{(\w+)\}/g, (match, paramKey) => params[paramKey]?.toString() || match)`,
      scanning left to right and resuming after each match. */
  function Interpolate(s: string, params: map<string, string>): string
    decreases |s|
  {
    if s == [] then []
    else
      var n := PlaceholderLength(s);
      if n > 0 then Replacement(s[1..n - 1], params, s[..n]) + Interpolate(s[n..], params)
      else [s[0]] + Interpolate(s[1..], params)
  }

  /** With no parameter to use, every placeholder stays as written. */
  lemma {:induction false} InterpolateNoParams(s: string)
    ensures Interpolate(s, map[]) == s
    decreases |s|
  {
    if s != [] {
      var n := PlaceholderLength(s);
      if n > 0 {
        InterpolateNoParams(s[n..]);
        assert s == s[..n] + s[n..];
      } else {
        InterpolateNoParams(s[1..]);
        assert s == [s[0]] + s[1..];
      }
    }
  }

  /** A string without `{` is returned unchanged. */
  lemma {:induction false} InterpolateNoBrace(s: string, params: map<string, string>)
    requires '{' !in s
    ensures Interpolate(s, params) == s
    decreases |s|
  {
    if s != [] {
      InterpolateNoBrace(s[1..], params);
      assert s == [s[0]] + s[1..];
    }
  }

  /** A character that does not open a placeholder is copied. */
  lemma InterpolatePlain(c: char, rest: string, params: map<string, string>)
    requires c != '{'
    ensures Interpolate([c] + rest, params) == [c] + Interpolate(rest, params)
  {
    assert ([c] + rest)[1..] == rest;
  }

  /** A placeholder `{name}` is replaced by its parameter, or kept when the parameter is
      missing or empty; scanning resumes after its closing brace. */
  lemma {:induction false} InterpolatePlaceholder(name: string, rest: string, params: map<string, string>)
    requires name != [] && forall i :: 0 <= i < |name| ==> IsWordChar(name[i])
    ensures Interpolate("{" + name + "}" + rest, params)
            == (if name in params && params[name] != "" then params[name] else "{" + name + "}")
               + Interpolate(rest, params)
  {
    var s := "{" + name + "}" + rest;
    PlaceholderLengthOf(name, rest);
    assert s[1..|name| + 1] == name;
    assert s[..|name| + 2] == "{" + name + "}";
    assert s[|name| + 2..] == rest;
  }

  /** A `{`, one or more word characters and a `}` at the start are always matched, as a whole. */
  lemma PlaceholderLengthOf(name: string, rest: string)
    requires name != [] && forall i :: 0 <= i < |name| ==> IsWordChar(name[i])
    ensures PlaceholderLength("{" + name + "}" + rest) == |name| + 2
  {
    var s := "{" + name + "}" + rest;
    assert s[1..][..|name|] == name;
    WordRunOf(name, s[1..]);
  }

  lemma {:induction false} WordRunOf(name: string, s: string)
    requires |name| < |s| && s[..|name|] == name && !IsWordChar(s[|name|])
    requires forall i :: 0 <= i < |name| ==> IsWordChar(name[i])
    ensures WordRun(s) == |name|
    decreases |name|
  {
    if name != [] {
      assert s[1..][..|name| - 1] == name[1..];
      WordRunOf(name[1..], s[1..]);
    }
  }

  /** One placeholder between two stretches of plain text. */
  lemma InterpolateSingle(before: string, name: string, after: string, params: map<string, string>)
    requires '{' !in before && '{' !in after
    requires name != [] && forall i :: 0 <= i < |name| ==> IsWordChar(name[i])
    ensures Interpolate(before + "{" + name + "}" + after, params)
            == before + Replacement(name, params, "{" + name + "}") + after
  {
    var placeholder := "{" + name + "}";
    Regroup(before, "{", name, "}", after);
    InterpolatePrefix(before, placeholder + after, params);
    InterpolatePlaceholder(name, after, params);
    InterpolateNoBrace(after, params);
    var replaced := Replacement(name, params, placeholder);
    assert Interpolate(placeholder + after, params) == replaced + after;
    ConcatAssoc(before, replaced, after);
  }


  /** Text before the first `{` is copied and leaves the rest to be scanned. */
  lemma {:induction false} InterpolatePrefix(before: string, rest: string, params: map<string, string>)
    requires '{' !in before
    ensures Interpolate(before + rest, params) == before + Interpolate(rest, params)
    decreases |before|
  {
    if before == [] {
      assert before + rest == rest;
    } else {
      var c, tail := before[0], before[1..];
      assert c != '{' && '{' !in tail;
      assert before + rest == [c] + (tail + rest);
      InterpolatePlain(c, tail + rest, params);
      InterpolatePrefix(tail, rest, params);
      assert before == [c] + tail;
      ConcatAssoc([c], tail, Interpolate(rest, params));
    }
  }


  /** The string `t` returns: the looked-up value, interpolated only when parameters are given. */
  function Translate(c: Catalogs, l: Locale, key: string, params: Option<map<string, string>>): string {
    match params
    case Some(ps) => Interpolate(Lookup(c, l, key), ps)
    case None => Lookup(c, l, key)
  }

  /** Parameters change nothing in a value without placeholders. */
  lemma TranslateWithoutPlaceholders(c: Catalogs, l: Locale, key: string, params: map<string, string>)
    requires '{' !in Lookup(c, l, key)
    ensures Translate(c, l, key, Some(params)) == Translate(c, l, key, None)
  {
    InterpolateNoBrace(Lookup(c, l, key), params);
  }

  /** `setLocale`'s cookie: one year, site-wide. */
  function LocaleCookie(l: Locale): (cookie: string)
    ensures exists rest :: cookie == "locale=" + l.Code() + ";" + rest
  {
    var attributes := " path=/; max-age=" + IntToString(OneYearSeconds);
    "locale=" + l.Code() + ";" + attributes
  }

  const OneYearSeconds: int := 60 * 60 * 24 * 365

  /** The cookie is the locale entry, `path=/` and a `max-age` of one year in seconds. */
  lemma LocaleCookieAttributes(l: Locale)
    ensures OneYearSeconds == 31536000 && IntToString(OneYearSeconds) == "31536000"
    ensures Split(LocaleCookie(l), ';') == ["locale=" + l.Code(), " path=/", " max-age=" + IntToString(OneYearSeconds)]
  {
    var entry := "locale=" + l.Code();
    var seconds := IntToString(OneYearSeconds);
    assert LocaleCookie(l) == entry + ";" + (" path=/; max-age=" + seconds);
    OneYearText();
    EntryHasNoSemicolon(l);
    SplitCookie(entry, seconds);
  }

  lemma SplitCookie(entry: string, seconds: string)
    requires ';' !in entry && ';' !in seconds
    ensures Split(entry + ";" + (" path=/; max-age=" + seconds), ';') == [entry, " path=/", " max-age=" + seconds]
  {
    CookieShape(entry, seconds);
    var pieces := [entry, " path=/", " max-age=" + seconds];
    assert forall k :: 0 <= k < |pieces| ==> ';' !in pieces[k];
    SplitJoin(pieces, ';');
  }

  lemma OneYearText()
    ensures OneYearSeconds == 31536000
    ensures IntToString(OneYearSeconds) == "31536000"
  {
    assert NatToString(3) == "3";
    assert NatToString(31) == NatToString(3) + "1";
    assert NatToString(315) == NatToString(31) + "5";
    assert NatToString(3153) == NatToString(315) + "3";
    assert NatToString(31536) == NatToString(3153) + "6";
    assert NatToString(315360) == NatToString(31536) + "0";
    assert NatToString(3153600) == NatToString(315360) + "0";
    assert NatToString(31536000) == NatToString(3153600) + "0";
  }

  lemma CookieShape(entry: string, seconds: string)
    ensures entry + ";" + (" path=/; max-age=" + seconds) == Join([entry, " path=/", " max-age=" + seconds], ';')
  {
    var pieces := [entry, " path=/", " max-age=" + seconds];
    assert pieces[1..][1..] == [" max-age=" + seconds];
    assert Join(pieces[1..], ';') == " path=/" + ";" + (" max-age=" + seconds);
  }

  /** The cookie string `setLocale` writes, attributes included, reads back as the locale
      it set. The browser reports only `locale=<code>` among its cookies; that read-back is
      `CookieRoundTrip`. */
  lemma LocaleCookieRoundTrip(l: Locale)
    ensures GetLocale(true, LocaleCookie(l)) == l
  {
    var cookie := LocaleCookie(l);
    var rest :| cookie == "locale=" + l.Code() + ";" + rest;
    CookieRoundTrip(l, rest);
  }

  /** The provider: the active locale and the last cookie it wrote. */
  class LocaleProvider {
    const catalogs: Catalogs
    var locale: Locale
    var cookieWritten: Option<string>

    constructor(catalogs: Catalogs)
      ensures this.catalogs == catalogs
      ensures locale == Fr && cookieWritten == None
    {
      this.catalogs := catalogs;
      locale := Fr;
      cookieWritten := None;
    }

    /** The mount effect: adopt the cookie's locale when it names a supported one. */
    method RestoreFromCookie(cookie: string)
      modifies this
      ensures cookieWritten == old(cookieWritten)
      ensures match CookieLocaleValue(cookie)
              case Some(v) => locale == (if FromCode(v).Some? then FromCode(v).value else old(locale))
              case None => locale == old(locale)
      ensures old(locale) == Fr ==> locale == GetLocale(true, cookie)
    {
      var saved := CookieLocaleValue(cookie);
      assert GetLocale(true, cookie) == if saved.Some? && saved.value != "" && FromCode(saved.value).Some?
                                     then FromCode(saved.value).value else Fr;
      if saved.Some? && saved.value != "" && FromCode(saved.value).Some? {
        locale := FromCode(saved.value).value;
      }
    }

    /** `setLocale`: switch and remember the choice for a year. */
    method SetLocale(l: Locale)
      modifies this
      ensures locale == l
      ensures cookieWritten == Some(LocaleCookie(l))
      ensures GetLocale(true, cookieWritten.value) == locale
    {
      locale := l;
      cookieWritten := Some(LocaleCookie(l));
      LocaleCookieRoundTrip(l);
    }

    /** `t`, with the two walks written as the loops they are. */
    method T(key: string, params: Option<map<string, string>>) returns (r: string)
      ensures r == Translate(catalogs, locale, key, params)
    {
      var keys := Split(key, '.');
      var value := WalkLoop(Some(catalogs.For(locale)), keys);
      var text: string;
      if value.Some? && value.value.Text? {
        text := value.value.text;
      } else {
        var fallback := WalkLoop(Some(catalogs.en), keys);
        text := if fallback.Some? && fallback.value.Text? then fallback.value.text else key;
      }
      if params.Some? {
        r := Interpolate(text, params.value);
      } else {
        r := text;
      }
    }
  }

  /** `for (const k of keys) value = value?.[k]` */
  method WalkLoop(start: Option<Message>, keys: seq<string>) returns (value: Option<Message>)
    ensures value == Walk(start, keys)
  {
    value := start;
    for i := 0 to |keys|
      invariant Walk(value, keys[i..]) == Walk(start, keys)
    {
      assert keys[i..][1..] == keys[i + 1..];
      value := Step(value, keys[i]);
    }
    assert keys[|keys|..] == [];
  }
}
