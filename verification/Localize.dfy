/** The template rewriter (src/web/i18n.rs:74-110). Text between "[[" and "]]" that the catalog knows is
    replaced; everything else stays. The catalog is a parameter; its rules are those at lines 371-395. */
module Localize {
  import opened Documents

  const OPEN := "[["
  const CLOSE := "]]"

  /** Pairs of the English text and its translation. */
  type Catalog = seq<(string, string)>

  datatype Lang = En | Ja

  function Code(lang: Lang): string {
    if lang.En? then "en" else "ja"
  }

  function Translate(c: Catalog, key: string): Option<string> {
    if c == [] then None else if c[0].0 == key then Some(c[0].1) else Translate(c[1..], key)
  }

  /** Two brackets in a row. */
  predicate Twice(s: string, i: nat, bracket: char) {
    i + 1 < |s| && s[i] == bracket && s[i + 1] == bracket
  }

  ghost predicate Has(s: string, bracket: char) {
    exists i: nat :: Twice(s, i, bracket)
  }

  /** The leftmost two in a row. */
  function Find(s: string, bracket: char): (r: Option<nat>)
    ensures r.Some? ==> Twice(s, r.value, bracket) && forall i: nat :: i < r.value ==> !Twice(s, i, bracket)
    ensures r.None? ==> !Has(s, bracket)
  {
    if Twice(s, 0, bracket) then Some(0)
    else if s == "" then None
    else
      var later := Find(s[1..], bracket);
      assert forall i: nat :: i > 0 && Twice(s, i, bracket) ==> Twice(s[1..], i - 1, bracket);
      if later.None? then None else Some(later.value + 1)
  }

  function Shown(c: Catalog, lang: Lang, key: string): string
    requires Translate(c, key).Some?
  {
    if lang.Ja? then Translate(c, key).value else key
  }

  /** The catalog's first entry for the key decides. */
  lemma {:induction false} TranslateIsFirst(c: Catalog, key: string)
    ensures match Translate(c, key)
      case None => forall i :: 0 <= i < |c| ==> c[i].0 != key
      case Some(v) => exists i :: 0 <= i < |c| && c[i] == (key, v) && forall j :: 0 <= j < i ==> c[j].0 != key
  {
    if c != [] && c[0].0 == key {
      assert c[0] == (key, Translate(c, key).value);
    } else if c != [] {
      TranslateIsFirst(c[1..], key);
      if Translate(c, key).Some? {
        var v := Translate(c, key).value;
        var i :| 0 <= i < |c| - 1 && c[1..][i] == (key, v) && forall j :: 0 <= j < i ==> c[1..][j].0 != key;
        forall j | 0 <= j < i + 1 ensures c[j].0 != key { assert j > 0 ==> c[j] == c[1..][j - 1]; }
        assert c[i + 1] == (key, v);
      } else {
        forall i | 0 <= i < |c| ensures c[i].0 != key { assert i > 0 ==> c[i] == c[1..][i - 1]; }
      }
    }
  }

  /** Japanese shows the translation, English the key; the placeholder becomes the language's code. */
  lemma ShownMeans(c: Catalog, key: string)
    requires Translate(c, key).Some?
    ensures Shown(c, Ja, key) == Translate(c, key).value && Shown(c, En, key) == key
    ensures Code(Ja) == "ja" && Code(En) == "en"
  {}

  // ----- Specification: one position at a time -----

  /** A known marker here is translated; an opening that starts none is kept and stepped over; any other
      character is kept. */
  function Rewrite(c: Catalog, lang: Lang, s: string): string
    decreases |s|
  {
    if s == "" then ""
    else if !Twice(s, 0, '[') then [s[0]] + Rewrite(c, lang, s[1..])
    else
      var after := s[2..];
      var end := Find(after, ']');
      if end.Some? && Translate(c, after[..end.value]).Some?
      then Shown(c, lang, after[..end.value]) + Rewrite(c, lang, after[end.value + 2..])
      else OPEN + Rewrite(c, lang, after)
  }

  function Replace(s: string, pattern: string, with: string): string
    requires pattern != ""
    decreases |s|
  {
    if s == "" then ""
    else if pattern <= s then with + Replace(s[|pattern|..], pattern, with)
    else [s[0]] + Replace(s[1..], pattern, with)
  }

  const LANG_MARK := "__LANG__"

  lemma KeepsFirst(c: Catalog, lang: Lang, s: string)
    requires s != "" && !Twice(s, 0, '[')
    ensures Rewrite(c, lang, s) == [s[0]] + Rewrite(c, lang, s[1..])
  {}

  lemma FirstJoined(s: string, n: nat, tail: string)
    requires 0 < n <= |s|
    ensures [s[0]] + (s[1..][..n - 1] + tail) == s[..n] + tail && s[1..][n - 1..] == s[n..]
  {
    assert s[..n] == [s[0]] + s[1..][..n - 1];
  }

  /** Text before the first opening is kept. */
  lemma {:induction false} KeepsUpTo(c: Catalog, lang: Lang, s: string, n: nat)
    requires n <= |s| && forall i: nat :: i < n ==> !Twice(s, i, '[')
    ensures Rewrite(c, lang, s) == s[..n] + Rewrite(c, lang, s[n..])
  {
    if n == 0 {
      assert s[0..] == s;
    } else {
      forall i: nat | i < n - 1 ensures !Twice(s[1..], i, '[') { assert !Twice(s, i + 1, '['); }
      KeepsUpTo(c, lang, s[1..], n - 1);
      assert !Twice(s, 0, '[');
      KeepsFirst(c, lang, s);
      FirstJoined(s, n, Rewrite(c, lang, s[n..]));
    }
  }

  /** Without a closing, nothing changes. */
  lemma {:induction false} UnclosedIsKept(c: Catalog, lang: Lang, s: string)
    requires !Has(s, ']')
    ensures Rewrite(c, lang, s) == s
    decreases |s|
  {
    if s != "" {
      var n := if Twice(s, 0, '[') then 2 else 1;
      assert !Has(s[n..], ']') by {
        forall i: nat ensures !Twice(s[n..], i, ']') { assert !Twice(s, i + n, ']'); }
      }
      UnclosedIsKept(c, lang, s[n..]);
      assert s == s[..n] + s[n..];
    }
  }

  // ----- The loop -----

  /** What an opening at the front becomes. */
  function AtOpening(c: Catalog, lang: Lang, after: string): string {
    var end := Find(after, ']');
    if end.None? then OPEN + after
    else if Translate(c, after[..end.value]).Some?
    then Shown(c, lang, after[..end.value]) + Rewrite(c, lang, after[end.value + 2..])
    else OPEN + Rewrite(c, lang, after)
  }

  lemma RewriteAtOpening(c: Catalog, lang: Lang, after: string)
    ensures Rewrite(c, lang, OPEN + after) == AtOpening(c, lang, after)
  {
    var s := OPEN + after;
    assert Twice(s, 0, '[') && s[2..] == after;
    if Find(after, ']').None? { UnclosedIsKept(c, lang, after); }
  }

  lemma AtFirstOpening(c: Catalog, lang: Lang, s: string, start: nat)
    requires Find(s, '[') == Some(start)
    ensures s[start..] == OPEN + s[start + 2..]
    ensures Rewrite(c, lang, s) == s[..start] + AtOpening(c, lang, s[start + 2..])
  {
    KeepsUpTo(c, lang, s, start);
    assert s[start..] == OPEN + s[start + 2..];
    RewriteAtOpening(c, lang, s[start + 2..]);
  }

  lemma NoOpening(c: Catalog, lang: Lang, s: string)
    requires Find(s, '[').None?
    ensures Rewrite(c, lang, s) == s
  {
    KeepsUpTo(c, lang, s, |s|);
    assert s[|s|..] == "" && s[..|s|] == s;
  }

  lemma Appended(out: string, a: string, b: string, tail: string)
    ensures ((out + a) + b) + tail == out + (a + (b + tail)) && (out + a) + b == out + (a + b)
  {}

  method LocalizeTemplate(c: Catalog, template: string, lang: Lang) returns (r: string)
    ensures r == Replace(Rewrite(c, lang, template), LANG_MARK, Code(lang))
  {
    var out, rest := "", template;
    ghost var todo := Rewrite(c, lang, rest);
    while true
      invariant todo == Rewrite(c, lang, rest) && out + todo == Rewrite(c, lang, template)
      decreases |rest|
    {
      var start := Find(rest, '[');
      if start.None? {
        NoOpening(c, lang, rest);
        break;
      }
      AtFirstOpening(c, lang, rest, start.value);
      var before, after := rest[..start.value], rest[start.value + 2..];
      var end := Find(after, ']');
      if end.None? {
        Appended(out, before, rest[start.value..], "");
        out, rest := out + before, rest[start.value..];
        break;
      }
      var known := Translate(c, after[..end.value]);
      if known.Some? {
        var shown := if lang.Ja? then known.value else after[..end.value];
        todo := Rewrite(c, lang, after[end.value + 2..]);
        Appended(out, before, shown, todo);
        out, rest := out + before + shown, after[end.value + 2..];
      } else {
        todo := Rewrite(c, lang, after);
        Appended(out, before, OPEN, todo);
        out, rest := out + before + OPEN, after;
      }
    }
    r := Replace(out + rest, LANG_MARK, Code(lang));
  }

  // ----- Inserted text never disturbs the markers after it -----

  /** The rules the catalog keeps. */
  ghost predicate Sound(c: Catalog) {
    forall key :: Translate(c, key).Some? ==> Markable(key)
  }

  ghost predicate Markable(key: string) {
    !Has(key, '[') && !Has(key, ']') && (key != "" ==> key[|key| - 1] != ']')
  }

  /** Text that may be put into a template: no closing, and no bracket left open at its end. */
  ghost predicate Plain(v: string) {
    !Has(v, ']') && (v != "" ==> v[|v| - 1] != '[')
  }

  lemma FindIs(s: string, bracket: char, n: nat)
    requires Twice(s, n, bracket) && forall i: nat :: i < n ==> !Twice(s, i, bracket)
    ensures Find(s, bracket) == Some(n)
  {}

  /** The first closing after a marker's opening is the marker's own. */
  lemma OwnClose(key: string, rest: string)
    requires Markable(key)
    ensures Find(key + CLOSE + rest, ']') == Some(|key|)
  {
    var s := key + CLOSE + rest;
    forall i: nat | i < |key| ensures !Twice(s, i, ']') { assert !Twice(key, i, ']'); }
    FindIs(s, ']', |key|);
  }

  /** The first closing after plain text and a marker is the marker's. */
  lemma LaterClose(v: string, key: string, rest: string)
    requires Plain(v) && Markable(key)
    ensures Find(v + OPEN + key + CLOSE + rest, ']') == Some(|v + OPEN + key|)
  {
    var s, n := v + OPEN + key + CLOSE + rest, |v + OPEN + key|;
    forall i: nat | i < n ensures !Twice(s, i, ']') {
      assert !Twice(v, i, ']');
      assert i >= |v| + 2 ==> !Twice(key, i - |v| - 2, ']');
    }
    FindIs(s, ']', n);
  }

  lemma PlainTail(v: string, n: nat)
    requires Plain(v) && n <= |v|
    ensures Plain(v[n..])
  {
    forall i: nat ensures !Twice(v[n..], i, ']') { assert !Twice(v, i + n, ']'); }
  }

  lemma MarkerIsRewritten(c: Catalog, lang: Lang, key: string, rest: string)
    requires Markable(key) && Translate(c, key).Some?
    ensures Rewrite(c, lang, OPEN + key + CLOSE + rest) == Shown(c, lang, key) + Rewrite(c, lang, rest)
  {
    var after := key + CLOSE + rest;
    OwnClose(key, rest);
    RewriteAtOpening(c, lang, after);
    assert OPEN + key + CLOSE + rest == OPEN + after;
    assert after[..|key|] == key && after[|key| + 2..] == rest;
  }

  /** An opening inside plain text swallows nothing: what it would mark is no key. */
  lemma OpeningInText(c: Catalog, lang: Lang, v: string, key: string, rest: string)
    requires Sound(c) && Plain(v) && Markable(key)
    ensures Rewrite(c, lang, OPEN + (v + OPEN + key + CLOSE + rest)) ==
            OPEN + Rewrite(c, lang, v + OPEN + key + CLOSE + rest)
  {
    var after, n := v + OPEN + key + CLOSE + rest, |v + OPEN + key|;
    LaterClose(v, key, rest);
    RewriteAtOpening(c, lang, after);
    assert after[..n] == v + OPEN + key;
    assert Twice(after[..n], |v|, '[');
  }

  function Marker(key: string, rest: string): string {
    OPEN + key + CLOSE + rest
  }

  /** One character of text that is not an opening. */
  lemma StepOverCharacter(c: Catalog, lang: Lang, v: string, m: string)
    requires v != "" && !Twice(v, 0, '[') && v[|v| - 1] != '['
    ensures Rewrite(c, lang, v + m) == v[..1] + Rewrite(c, lang, v[1..] + m)
  {
    var s := v + m;
    assert s[1..] == v[1..] + m && s[0] == v[0];
    assert !Twice(s, 0, '[');
  }

  lemma MarkerJoined(v: string, key: string, rest: string)
    ensures v + OPEN + key + CLOSE + rest == v + Marker(key, rest)
  {}

  /** One opening in text. */
  lemma StepOverOpening(c: Catalog, lang: Lang, v: string, key: string, rest: string)
    requires Sound(c) && Plain(v) && Markable(key) && Twice(v, 0, '[')
    ensures Rewrite(c, lang, v + Marker(key, rest)) == v[..2] + Rewrite(c, lang, v[2..] + Marker(key, rest))
  {
    PlainTail(v, 2);
    OpeningInText(c, lang, v[2..], key, rest);
    assert v[..2] == OPEN;
    MarkerJoined(v[2..], key, rest);
    Cut(v, 2, Marker(key, rest));
  }

  /** Plain text is copied unchanged, and the known marker after it is still translated. */
  lemma {:induction false} TextThenMarker(c: Catalog, lang: Lang, v: string, key: string, rest: string)
    requires Sound(c) && Plain(v) && Translate(c, key).Some?
    ensures Rewrite(c, lang, v + Marker(key, rest)) == v + (Shown(c, lang, key) + Rewrite(c, lang, rest))
    decreases |v|
  {
    if v == "" {
      MarkerIsRewritten(c, lang, key, rest);
      assert v + Marker(key, rest) == OPEN + key + CLOSE + rest;
    } else {
      var n := if Twice(v, 0, '[') then 2 else 1;
      PlainTail(v, n);
      if n == 2 { StepOverOpening(c, lang, v, key, rest); } else { StepOverCharacter(c, lang, v, Marker(key, rest)); }
      TextThenMarker(c, lang, v[n..], key, rest);
      Cut(v, n, Shown(c, lang, key) + Rewrite(c, lang, rest));
    }
  }

  lemma Cut(v: string, n: nat, tail: string)
    requires n <= |v|
    ensures v[..n] + (v[n..] + tail) == v + tail
  {}

  /** A template: pieces of text, each followed by a known marker, and a last piece. */
  function Assembled(parts: seq<(string, string)>, last: string): string {
    if parts == [] then last else parts[0].0 + Marker(parts[0].1, Assembled(parts[1..], last))
  }

  predicate AllKnown(c: Catalog, parts: seq<(string, string)>) {
    forall i :: 0 <= i < |parts| ==> Translate(c, parts[i].1).Some?
  }

  function Translated(c: Catalog, lang: Lang, parts: seq<(string, string)>, last: string): string
    requires AllKnown(c, parts)
  {
    if parts == [] then last
    else
      assert forall i :: 0 < i < |parts| ==> parts[1..][i - 1] == parts[i];
      parts[0].0 + (Shown(c, lang, parts[0].1) + Translated(c, lang, parts[1..], last))
  }

  /** Whatever plain text is put between its markers, a template keeps the text and translates the markers. */
  lemma {:induction false} TemplatesAreTranslated(c: Catalog, lang: Lang, parts: seq<(string, string)>, last: string)
    requires Sound(c) && AllKnown(c, parts) && !Has(last, ']')
    requires forall i :: 0 <= i < |parts| ==> Plain(parts[i].0)
    ensures Rewrite(c, lang, Assembled(parts, last)) == Translated(c, lang, parts, last)
  {
    if parts == [] {
      UnclosedIsKept(c, lang, last);
    } else {
      assert forall i :: 0 < i < |parts| ==> parts[1..][i - 1] == parts[i];
      TemplatesAreTranslated(c, lang, parts[1..], last);
      TextThenMarker(c, lang, parts[0].0, parts[0].1, Assembled(parts[1..], last));
    }
  }

  // ----- The language placeholder -----

  ghost predicate Mentions(s: string, pattern: string) {
    exists i: nat :: i <= |s| && pattern <= s[i..]
  }

  lemma {:induction false} NothingToReplace(s: string, pattern: string, with: string)
    requires pattern != "" && !Mentions(s, pattern)
    ensures Replace(s, pattern, with) == s
  {
    if s != "" {
      assert s[0..] == s;
      forall i: nat | i <= |s[1..]| ensures !(pattern <= s[1..][i..]) { assert s[1..][i..] == s[i + 1..]; }
      NothingToReplace(s[1..], pattern, with);
    }
  }

  /** Replacing by something shorter shortens exactly the text that mentions the pattern. */
  lemma {:induction false} ReplaceShortens(s: string, pattern: string, with: string)
    requires |with| < |pattern|
    ensures |Replace(s, pattern, with)| <= |s|
    ensures Mentions(s, pattern) ==> |Replace(s, pattern, with)| < |s|
    decreases |s|
  {
    if s == "" {
      assert !Mentions(s, pattern);
    } else if pattern <= s {
      ReplaceShortens(s[|pattern|..], pattern, with);
    } else {
      ReplaceShortens(s[1..], pattern, with);
      if Mentions(s, pattern) { MentionedLater(s, pattern); }
    }
  }

  lemma MentionedLater(s: string, pattern: string)
    requires s != "" && Mentions(s, pattern) && !(pattern <= s)
    ensures Mentions(s[1..], pattern)
  {
    var i: nat :| i <= |s| && pattern <= s[i..];
    assert s[0..] == s;
    assert s[1..][i - 1..] == s[i..];
  }

  /** The whole function on a template of plain texts and known markers: every text is kept and every marker
      translated exactly when the outcome nowhere spells the language placeholder. */
  lemma TemplatesAreLocalized(c: Catalog, lang: Lang, parts: seq<(string, string)>, last: string)
    requires Sound(c) && AllKnown(c, parts) && !Has(last, ']')
    requires forall i :: 0 <= i < |parts| ==> Plain(parts[i].0)
    ensures Replace(Rewrite(c, lang, Assembled(parts, last)), LANG_MARK, Code(lang)) == Translated(c, lang, parts, last)
            <==> !Mentions(Translated(c, lang, parts, last), LANG_MARK)
  {
    TemplatesAreTranslated(c, lang, parts, last);
    var shown := Translated(c, lang, parts, last);
    if Mentions(shown, LANG_MARK) {
      ReplaceShortens(shown, LANG_MARK, Code(lang));
    } else {
      NothingToReplace(shown, LANG_MARK, Code(lang));
    }
  }

  /** Plain text that is not kept: the placeholder itself. */
  lemma PlaceholderIsReplaced(c: Catalog)
    ensures Plain(LANG_MARK) && Replace(Rewrite(c, En, LANG_MARK), LANG_MARK, Code(En)) == "en"
  {
    UnclosedIsKept(c, En, LANG_MARK);
    assert LANG_MARK[|LANG_MARK|..] == "";
    assert Replace(LANG_MARK, LANG_MARK, Code(En)) == Code(En) + Replace("", LANG_MARK, Code(En));
  }
}
