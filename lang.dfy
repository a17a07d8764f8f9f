/** The message catalog of `ccma` (src/lib/lang/index.ts): a dotted key is
    walked through a nested message tree, falling back to the key itself, and
    `{name}` placeholders in the template are filled from the parameters. */
module Lang {
  import opened Wrappers
  import Config

  /** A message table: nested objects whose leaves are template strings. */
  datatype Tree = Node(children: map<string, Tree>) | Leaf(text: string)

  /** JavaScript truthiness of a looked-up value: only the empty string is falsy. */
  predicate Truthy(t: Tree) {
    t != Leaf("")
  }

  // ---------------------------------------------------------------------
  // `key.split('.')`

  /** The segments of `s` between dots; `""` gives `[""]`, as in JavaScript. */
  function Split(s: string): (parts: seq<string>)
    ensures |parts| >= 1
    ensures forall i :: 0 <= i < |parts| ==> '.' !in parts[i]
    decreases |s|
  {
    if s == [] then [""]
    else
      var rest := Split(s[1..]);
      if s[0] == '.' then [""] + rest
      else [[s[0]] + rest[0]] + rest[1..]
  }

  /** The segments joined again with dots. */
  function Join(parts: seq<string>): string
    requires |parts| >= 1
    decreases |parts|
  {
    if |parts| == 1 then parts[0] else parts[0] + "." + Join(parts[1..])
  }

  /** Splitting loses nothing: the segments join back to the key. */
  lemma {:induction false} JoinSplit(s: string)
    ensures Join(Split(s)) == s
    decreases |s|
  {
    if s != [] {
      JoinSplit(s[1..]);
      var rest := Split(s[1..]);
      if s[0] == '.' {
        assert Split(s) == [""] + rest;
        assert ([""] + rest)[1..] == rest;
      } else {
        var parts := Split(s);
        assert parts == [[s[0]] + rest[0]] + rest[1..];
        if |rest| > 1 {
          assert parts[1..] == rest[1..];
          assert Join(rest) == rest[0] + "." + Join(rest[1..]);
        }
      }
      assert s == [s[0]] + s[1..];
    }
  }

  // ---------------------------------------------------------------------
  // Walking the key through the tree

  /** The value reached by following `path` from `t`, or None when some
      segment is missing, reaches a falsy value, or is applied to a string. */
  function Resolve(t: Tree, path: seq<string>): (r: Option<Tree>)
    ensures path == [] ==> r == Some(t)
    ensures path != [] && r.Some? ==> Truthy(r.value)
    decreases |path|
  {
    if path == [] then Some(t)
    else match t
      case Leaf(_) => None
      case Node(children) =>
        if path[0] in children && Truthy(children[path[0]]) then Resolve(children[path[0]], path[1..])
        else None
  }

  /** Following a path in two pieces is following it at once. */
  lemma {:induction false} ResolveAppend(t: Tree, p: seq<string>, q: seq<string>)
    ensures Resolve(t, p + q) == match Resolve(t, p) case Some(u) => Resolve(u, q) case None => None
    decreases |p|
  {
    if p != [] {
      assert (p + q)[0] == p[0] && (p + q)[1..] == p[1..] + q;
      if t.Node? && p[0] in t.children && Truthy(t.children[p[0]]) {
        ResolveAppend(t.children[p[0]], p[1..], q);
      }
    } else {
      assert p + q == q;
    }
  }

  /** The template a key names: the string at the end of its path. */
  function Template(messages: Tree, key: string): (tpl: Option<string>)
    ensures tpl.Some? ==> tpl.value != "" && Resolve(messages, Split(key)) == Some(Leaf(tpl.value))
    ensures tpl.None? ==> forall s :: Resolve(messages, Split(key)) != Some(Leaf(s))
  {
    match Resolve(messages, Split(key))
    case Some(Leaf(s)) => Some(s)
    case _ => None
  }

  // ---------------------------------------------------------------------
  // `value.replace(/\{(\w+)\}/g, (match, param) => params[param] || match)`

  /** The characters of the regular-expression class `\w`. */
  predicate IsWordChar(c: char) {
    ('a' <= c <= 'z') || ('A' <= c <= 'Z') || ('0' <= c <= '9') || c == '_'
  }

  predicate IsWord(w: string) {
    |w| > 0 && forall k :: 0 <= k < |w| ==> IsWordChar(w[k])
  }

  /** The length of the longest prefix of `s` made of word characters. */
  function WordPrefix(s: string): (n: nat)
    ensures n <= |s|
    ensures forall k :: 0 <= k < n ==> IsWordChar(s[k])
    ensures n < |s| ==> !IsWordChar(s[n])
    decreases |s|
  {
    if s == [] || !IsWordChar(s[0]) then 0 else 1 + WordPrefix(s[1..])
  }

  /** The name `w` when `s` starts with the placeholder `{w}`. */
  function PlaceholderAt(s: string): (w: Option<string>)
    ensures w.Some? ==> IsWord(w.value) && |w.value| + 2 <= |s| && s[..|w.value| + 2] == "{" + w.value + "}"
  {
    if |s| < 3 || s[0] != '{' then None
    else
      var n := WordPrefix(s[1..]);
      if n > 0 && n + 1 < |s| && s[n + 1] == '}' then Some(s[1..n + 1]) else None
  }

  /** Every placeholder at the head of a string is recognised. */
  lemma PlaceholderAtWord(w: string, rest: string)
    requires IsWord(w)
    ensures PlaceholderAt("{" + w + "}" + rest) == Some(w)
  {
    var s := "{" + w + "}" + rest;
    var n := WordPrefix(s[1..]);
    var t := s[1..];
    assert t == w + "}" + rest;
    assert t[|w|] == '}' && !IsWordChar(t[|w|]);
    if n < |w| {
      assert false;
    }
    assert s[1..n + 1] == s[1..][..|w|] == w;
  }

  /** The text a placeholder `{w}` becomes: a present, non-empty parameter,
      or the placeholder itself. */
  function Replacement(w: string, params: map<string, string>): (r: string)
    ensures w in params && params[w] != "" ==> r == params[w]
    ensures (w !in params || params[w] == "") ==> r == "{" + w + "}"
    ensures r != ""
  {
    if w in params && params[w] != "" then params[w] else "{" + w + "}"
  }

  /** One left-to-right pass over `s` replacing each placeholder. */
  function Substitute(s: string, params: map<string, string>): (r: string)
    ensures '{' !in s ==> r == s
    decreases |s|
  {
    if s == [] then []
    else match PlaceholderAt(s)
      case Some(w) => Replacement(w, params) + Substitute(s[|w| + 2..], params)
      case None =>
        assert '{' !in s ==> '{' !in s[1..] && s == [s[0]] + s[1..];
        [s[0]] + Substitute(s[1..], params)
  }

  predicate NoPlaceholder(s: string) {
    forall i :: 0 <= i < |s| ==> PlaceholderAt(s[i..]).None?
  }

  /** A template without placeholders comes back unchanged, whatever the parameters. */
  lemma {:induction false} SubstituteNoPlaceholder(s: string, params: map<string, string>)
    requires NoPlaceholder(s)
    ensures Substitute(s, params) == s
    decreases |s|
  {
    if s != [] {
      assert s[0..] == s;
      forall i | 0 <= i < |s[1..]| ensures PlaceholderAt(s[1..][i..]).None? {
        assert s[1..][i..] == s[i + 1..];
      }
      SubstituteNoPlaceholder(s[1..], params);
      assert s == [s[0]] + s[1..];
    }
  }

  /** So substitution is idempotent on such templates. */
  lemma SubstituteIdempotent(s: string, params: map<string, string>)
    requires NoPlaceholder(s)
    ensures Substitute(Substitute(s, params), params) == Substitute(s, params)
  {
    SubstituteNoPlaceholder(s, params);
  }

  /** Missing and empty parameters leave every placeholder verbatim: with
      nothing to fill in, substitution is the identity. */
  lemma {:induction false} SubstituteEmptyParams(s: string, params: map<string, string>)
    requires forall w :: w in params ==> params[w] == ""
    ensures Substitute(s, params) == s
    decreases |s|
  {
    if s != [] {
      match PlaceholderAt(s)
      case Some(w) =>
        SubstituteEmptyParams(s[|w| + 2..], params);
        assert s == s[..|w| + 2] + s[|w| + 2..];
      case None =>
        SubstituteEmptyParams(s[1..], params);
        assert s == [s[0]] + s[1..];
    }
  }

  /** No placeholder starts at any of the first `n` positions of `s`. */
  predicate NoPlaceholderBefore(s: string, n: nat)
    requires n <= |s|
    decreases n
  {
    n == 0 || (PlaceholderAt(s).None? && NoPlaceholderBefore(s[1..], n - 1))
  }

  /** Text in which no placeholder starts is copied unchanged, including a
      `{` that opens no placeholder. */
  lemma {:induction false} SubstituteLiteralPrefix(a: string, b: string, params: map<string, string>)
    requires NoPlaceholderBefore(a + b, |a|)
    ensures Substitute(a + b, params) == a + Substitute(b, params)
    decreases |a|
  {
    var c := a + b;
    if a != [] {
      assert c[1..] == a[1..] + b;
      SubstituteLiteralPrefix(a[1..], b, params);
      assert a == [a[0]] + a[1..];
    } else {
      assert c == b;
    }
  }

  /** For example, with `n` set to `x`, `{{n}}` becomes `{x}`: the outer
      braces open and close no placeholder and are copied. */
  lemma SubstituteStrayBraces()
    ensures Substitute("{{n}}", map["n" := "x"]) == "{x}"
  {
    var params := map["n" := "x"];
    assert "{{n}}" == "{" + ("{" + "n" + "}" + "}");
    assert PlaceholderAt("{{n}}").None?;
    SubstituteLiteralPrefix("{", "{n}}", params);
    SubstitutePlaceholder("n", "}", params);
    SubstituteLiteralPrefix("}", "", params);
    assert "}" + "" == "}";
  }

  /** A placeholder is replaced by its parameter and scanning resumes after
      it: the inserted text is never scanned again. */
  lemma SubstitutePlaceholder(w: string, rest: string, params: map<string, string>)
    requires IsWord(w)
    ensures Substitute("{" + w + "}" + rest, params) == Replacement(w, params) + Substitute(rest, params)
  {
    var s := "{" + w + "}" + rest;
    PlaceholderAtWord(w, rest);
    assert s[|w| + 2..] == rest;
  }

  /** For instance, a parameter whose value looks like a placeholder is
      inserted as it is. */
  lemma SubstituteSinglePass()
    ensures Substitute("{a}", map["a" := "{b}", "b" := "x"]) == "{b}"
  {
    SubstitutePlaceholder("a", "", map["a" := "{b}", "b" := "x"]);
    assert "{a}" == "{" + "a" + "}" + "";
  }

  /** `t(key, params)`: the template the key names, with placeholders filled
      when parameters are given; the key itself when it names no string. */
  function Translate(messages: Tree, key: string, params: Option<map<string, string>>): (r: string)
    ensures Template(messages, key).None? ==> r == key
    ensures Resolve(messages, Split(key)).Some? && Resolve(messages, Split(key)).value.Node? ==> r == key
    ensures Template(messages, key).Some? && params.None? ==> r == Template(messages, key).value
    ensures Template(messages, key).Some? && params.Some? ==> r == Substitute(Template(messages, key).value, params.value)
  {
    match Template(messages, key)
    case None => key
    case Some(tpl) => if params.Some? then Substitute(tpl, params.value) else tpl
  }

  /** A key with a missing segment translates to itself. */
  lemma TranslateMissingPrefix(messages: Tree, key: string, params: Option<map<string, string>>, k: nat)
    requires k <= |Split(key)| && Resolve(messages, Split(key)[..k]).None?
    ensures Translate(messages, key, params) == key
  {
    var path := Split(key);
    ResolveAppend(messages, path[..k], path[k..]);
    assert path[..k] + path[k..] == path;
  }

  // ---------------------------------------------------------------------
  // The `I18n` object

  class I18n {
    const config: Config.ConfigManager
    const zh: Tree
    const en: Tree
    var messages: Tree

    /** The table for a language (`loadMessages`). */
    function TableFor(language: Config.Language): (t: Tree)
      ensures language == Config.Zh ==> t == zh
      ensures language == Config.En ==> t == en
    {
      if language == Config.Zh then zh else en
    }

    /** The loaded table is the one for the stored language. */
    ghost predicate Valid()
      reads this, config
    {
      messages == TableFor(Config.LanguageOf(config.file))
    }

    constructor(config: Config.ConfigManager, zh: Tree, en: Tree)
      ensures this.config == config && this.zh == zh && this.en == en
      ensures Valid()
    {
      this.config := config;
      this.zh := zh;
      this.en := en;
      new;
      var language := config.GetLanguage();
      messages := TableFor(language);
    }

    method LoadMessages()
      modifies this`messages
      ensures Valid()
    {
      var language := config.GetLanguage();
      messages := TableFor(language);
    }

    method T(key: string, params: Option<map<string, string>>) returns (r: string)
      ensures r == Translate(messages, key, params)
    {
      var keys := Split(key);
      var value := messages;
      var i := 0;
      while i < |keys|
        invariant 0 <= i <= |keys|
        invariant Resolve(messages, keys) == Resolve(value, keys[i..])
      {
        var k := keys[i];
        assert keys[i..][0] == k && keys[i..][1..] == keys[i + 1..];
        if value.Leaf? || k !in value.children || !Truthy(value.children[k]) {
          return key;
        }
        value := value.children[k];
        i := i + 1;
      }
      if !value.Leaf? {
        return key;
      }
      if params.Some? {
        return Substitute(value.text, params.value);
      }
      return value.text;
    }

    method SetLanguage(language: Config.Language)
      modifies this`messages, config`file
      ensures config.file == Some(Config.Load(old(config.file)).(language := Some(language)))
      ensures messages == TableFor(language) && Valid()
    {
      config.SetLanguage(language);
      LoadMessages();
    }

    method GetCurrentLanguage() returns (l: Config.Language)
      ensures l == Config.LanguageOf(config.file)
    {
      l := config.GetLanguage();
    }
  }
}
