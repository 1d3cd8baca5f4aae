/** `Localization`: the plugin's messages, one language file per locale, looked
    up with an English fallback, coloured and prefixed. */
module Messages {
  import opened Common
  import opened JavaStrings
  import opened Config
  import YamlMerge

  /** A locale, by its language tag. */
  type Locale = string

  /** `Locale.ENGLISH`. */
  const English: Locale := "en"

  /** A loaded language file: message paths to messages. */
  type LangFile = map<string, string>

  /** The character that starts a colour code in chat text (`ChatColor.COLOR_CHAR`),
      as the default prefix in `ConfigManager` writes it. */
  const ColourChar: char := '\U{00A7}'

  /** The replacement written in `getMessage`: the two Thai letters U+0E22
      U+0E07, which is how the UTF-8 bytes of the section sign read in the
      Windows-874 code page. */
  const MisencodedColourChar: string := "\U{0E22}\U{0E07}"

  /** `message.replace("&", ...)` as written. */
  function ColourAsWritten(message: string): (r: string)
    ensures '&' !in r
  {
    ReplaceAll(message, '&', MisencodedColourChar)
  }

  /** A message with a colour code, coloured as written, carries no colour
      character at all: `&a` turns into three visible letters instead of
      the code for green. */
  lemma ColourAsWrittenShowsCodes()
    ensures ColourAsWritten("&a") == "\U{0E22}\U{0E07}a"
    ensures ColourChar !in ColourAsWritten("&a")
  {
    assert "&a"[1..] == "a";
    assert "&a"[0] == '&';
    assert ColourChar !in "a";
  }

  /** `message.replace("&", "§")`: every `&` becomes the colour character. */
  function Colour(message: string): (r: string)
  {
    ReplaceAll(message, '&', [ColourChar])
  }

  /** Colouring keeps the length and the position of every character and
      turns exactly the `&` characters into colour characters. */
  lemma {:induction false} ColourPositionwise(message: string)
    ensures |Colour(message)| == |message|
    ensures forall i :: 0 <= i < |message| ==>
      Colour(message)[i] == if message[i] == '&' then ColourChar else message[i]
  {
    if message != [] {
      ColourPositionwise(message[1..]);
      var head := if message[0] == '&' then [ColourChar] else [message[0]];
      assert Colour(message) == head + Colour(message[1..]);
    }
  }

  /** Colouring with the colour character gives `&a` the meaning of the
      code for green, and leaves no `&` behind. */
  lemma ColourMakesCodes()
    ensures Colour("&a") == [ColourChar] + "a"
    ensures '&' !in Colour("&a")
  {
    ColourPositionwise("&a");
    assert "&a"[1..] == "a";
    assert ReplaceAll("a", '&', [ColourChar]) == "a";
  }

  /** `lang.replace(".yml", "")`: every occurrence of `.yml`, left to right,
      is removed. */
  function StripYml(name: string): string
  {
    if |name| >= 4 && name[..4] == ".yml" then StripYml(name[4..])
    else if name == [] then []
    else [name[0]] + StripYml(name[1..])
  }

  /** `name` has no occurrence of `.yml`. */
  predicate NoYml(name: string)
  {
    |name| < 4 || (name[..4] != ".yml" && NoYml(name[1..]))
  }

  /** The locale of the file `<tag>.yml` is `tag`, for a tag without `.yml` in it. */
  lemma {:induction false} LocaleOfFileName(tag: string)
    requires NoYml(tag)
    ensures StripYml(tag + ".yml") == tag
  {
    var s := tag + ".yml";
    if tag == [] {
      assert s == ".yml" && s[..4] == ".yml";
      assert StripYml(s[4..]) == [];
    } else {
      assert s[..4] != ".yml" by {
        if |tag| >= 4 {
          assert s[..4] == tag[..4];
        } else if |tag| == 1 {
          assert s[1] == '.';
        } else if |tag| == 2 {
          assert s[2] == '.';
        } else {
          assert s[3] == '.';
        }
      }
      assert s[1..] == tag[1..] + ".yml";
      assert NoYml(tag[1..]);
      LocaleOfFileName(tag[1..]);
      assert [tag[0]] + tag[1..] == tag;
    }
  }

  /** The locale a file name gives, when it is a language file. */
  function LocaleSet(name: string): set<Locale>
  {
    if YamlMerge.IsLanguageFile(name) then {StripYml(name)} else {}
  }

  /** `lang` after putting, in `order`, the language file of every name that
      ends with `.yml`; a file that fails to load is put empty. */
  function LoadedInto(lang: map<Locale, LangFile>, order: seq<string>, dir: map<string, Option<LangFile>>): map<Locale, LangFile>
    requires forall i :: 0 <= i < |order| ==> order[i] in dir
  {
    if order == [] then lang
    else
      var last := order[|order| - 1];
      var before := LoadedInto(lang, order[..|order| - 1], dir);
      if YamlMerge.IsLanguageFile(last) then before[StripYml(last) := if dir[last].Some? then dir[last].value else map[]]
      else before
  }

  /** The locales of the language files among `order`. */
  function LocalesIn(order: seq<string>): set<Locale>
  {
    if order == [] then {}
    else LocalesIn(order[..|order| - 1]) + LocaleSet(order[|order| - 1])
  }

  /** A locale is among those of `order` exactly when some language file of
      `order` names it. */
  lemma {:induction false} LocalesInMembers(order: seq<string>, x: Locale)
    ensures x in LocalesIn(order) <==>
      exists name :: name in order && YamlMerge.IsLanguageFile(name) && StripYml(name) == x
  {
    if order != [] {
      var init := order[..|order| - 1];
      LocalesInMembers(init, x);
      assert order == init + [order[|order| - 1]];
    }
  }

  /** The locales loaded are the old ones and one per `.yml` file, whatever
      the order of the walk; nothing is ever dropped. */
  lemma {:induction false} LoadedIntoKeys(lang: map<Locale, LangFile>, order: seq<string>, dir: map<string, Option<LangFile>>)
    requires forall i :: 0 <= i < |order| ==> order[i] in dir
    ensures LoadedInto(lang, order, dir).Keys == lang.Keys + LocalesIn(order)
  {
    if order != [] {
      LoadedIntoKeys(lang, order[..|order| - 1], dir);
    }
  }

  /** The locales loaded from a listing of the language folder. */
  function LocalesOf(dir: map<string, Option<LangFile>>): set<Locale>
  {
    set name | name in dir && YamlMerge.IsLanguageFile(name) :: StripYml(name)
  }

  /** Walking the whole folder, in any order, loads one locale per `.yml`
      file on top of the old ones. */
  lemma LoadedAll(lang: map<Locale, LangFile>, order: seq<string>, dir: map<string, Option<LangFile>>)
    requires forall i :: 0 <= i < |order| ==> order[i] in dir
    requires forall name :: name in dir <==> name in order
    ensures LoadedInto(lang, order, dir).Keys == lang.Keys + LocalesOf(dir)
  {
    LoadedIntoKeys(lang, order, dir);
    forall x
      ensures x in LocalesIn(order) <==> x in LocalesOf(dir)
    {
      LocalesInMembers(order, x);
    }
  }

  /** The messages of the plugin. */
  class Localization {
    var prefix: string
    var lang: map<Locale, LangFile>
    /** The plugin's current locale (`getLocale`/`setLocale`). */
    var locale: Locale

    /** `new Localization(plugin)`, given the `prefix` the configuration
        holds, the plugin's locale and the files of the language folder. */
    constructor(prefix: string, locale: Locale, dir: map<string, Option<LangFile>>)
      ensures this.prefix == prefix && this.locale == locale
      ensures lang.Keys == LocalesOf(dir)
    {
      this.prefix := prefix;
      this.locale := locale;
      lang := map[];
      new;
      LoadLanguageFiles(dir);
    }

    /** The text of a message before colouring: the current locale's, else
        the English one, else empty; with no file for the current locale
        there is none, and a missing English file fails on `contains`. */
    function Raw(key: string): (r: Result<Option<string>, Fault>)
      reads this
      ensures locale !in lang <==> r == Success(None)
      ensures locale in lang && key in lang[locale] ==> r == Success(Some(lang[locale][key]))
      ensures locale in lang && key !in lang[locale] ==>
        r == if English !in lang then Failure(NullPointer)
             else if key in lang[English] then Success(Some(lang[English][key]))
             else Success(Some(""))
    {
      if locale !in lang then Success(None)
      else if key in lang[locale] then Success(Some(lang[locale][key]))
      else if English !in lang then Failure(NullPointer)
      else if key in lang[English] then Success(Some(lang[English][key]))
      else Success(Some(""))
    }

    /** `getMessage(key, usePrefix)`; `getMessage(key)` is `usePrefix`
        true. The text is coloured, then the prefix is put in front of it
        exactly when asked for. */
    function GetMessage(key: string, usePrefix: bool): (r: Result<Option<string>, Fault>)
      reads this
      ensures r.Success? <==> Raw(key).Success?
      ensures r.Failure? ==> r.error == NullPointer
      ensures r.Success? ==> (r.value.Some? <==> locale in lang)
      ensures r.Success? && r.value.Some? ==>
        r.value.value == (if usePrefix then prefix else "") + Colour(Raw(key).value.value)
    {
      match Raw(key)
      case Failure(e) => Failure(e)
      case Success(None) => Success(None)
      case Success(Some(message)) =>
        var coloured := Colour(message);
        Success(Some(if usePrefix then prefix + coloured else coloured))
    }

    /** A message of the current locale is coloured with no `&` left, and
        the one-argument form differs from the unprefixed one exactly by the
        prefix. */
    lemma MessageShape(key: string)
      requires locale in lang && key in lang[locale]
      ensures GetMessage(key, true) == Success(Some(prefix + Colour(lang[locale][key])))
      ensures GetMessage(key, false) == Success(Some(Colour(lang[locale][key])))
      ensures '&' !in Colour(lang[locale][key])
    {
      ColourPositionwise(lang[locale][key]);
    }

    /** `loadLanguageFiles()`: every file of the language folder whose name
        ends with `.yml` is put under its locale, in the folder's listing
        order; `dir` gives each file's contents, or none when it fails to
        load. Locales already loaded stay. */
    method LoadLanguageFiles(dir: map<string, Option<LangFile>>)
      modifies this`lang
      ensures exists order :: Enumerates(order, dir.Keys) && lang == LoadedInto(old(lang), order, dir)
      ensures lang.Keys == old(lang.Keys) + LocalesOf(dir)
    {
      var order := Enumerate(dir.Keys);
      EnumeratedKeys(order, dir.Keys);
      ghost var start := lang;
      for i := 0 to |order|
        invariant lang == LoadedInto(start, order[..i], dir)
      {
        var name := order[i];
        if YamlMerge.IsLanguageFile(name) {
          var file := if dir[name].Some? then dir[name].value else map[];
          lang := lang[StripYml(name) := file];
        }
        assert order[..i + 1][..i] == order[..i];
      }
      assert order[..|order|] == order;
      LoadedAll(start, order, dir);
    }

    /** `reload()`: the prefix is read again (a missing or non-string
        `prefix` throws before anything changes), the language files are
        loaded again, and a locale with no file switches to English. */
    method Reload(config: ConfigProvider, dir: map<string, Option<LangFile>>) returns (r: Outcome<Fault>)
      modifies this
      ensures r.Fail? <==> Typed(config.config, "prefix", StringKind).Failure?
      ensures r.Fail? ==> prefix == old(prefix) && lang == old(lang) && locale == old(locale)
      ensures r.Pass? ==> Typed(config.config, "prefix", StringKind) == Success(StringV(prefix))
      ensures r.Pass? ==> lang.Keys == old(lang.Keys) + LocalesOf(dir)
      ensures r.Pass? ==> locale == if old(locale) in lang then old(locale) else English
    {
      var p := config.GetString("prefix");
      if p.Failure? {
        return Fail(p.error);
      }
      prefix := p.value;
      LoadLanguageFiles(dir);
      if locale !in lang {
        locale := English;
      }
      return Pass;
    }
  }

  /** After a reload with an English file in the folder, every message is
      found: the locale has a file, so `getMessage` never answers null nor
      fails. */
  lemma ReloadedFindsMessages(l: Localization, key: string, usePrefix: bool)
    requires English in l.lang && (l.locale in l.lang || l.locale == English)
    ensures l.GetMessage(key, usePrefix).Success?
    ensures l.GetMessage(key, usePrefix).value.Some?
  {
  }
}
