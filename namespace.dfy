/** Article titles and namespaces: the normalisation MediaWiki applies to
    names, the split of a title into interwiki prefix, namespace and page
    title, and the two key-normalising tables that hold articles. */
module Namespaces {
  import opened Outcomes
  import opened Strings

  /** `_normalize_spaces`: underscores become spaces, each run of spaces
      becomes one space, then underscores are stripped from both ends (which
      finds none left). */
  function NormalizeSpaces(key: string): (r: string)
    ensures '_' !in r && NoDoubleSpace(r)
    ensures key == [] <==> r == []
  {
    var spaced := ReplaceChar(key, '_', ' ');
    var collapsed := CollapseSpaces(spaced);
    assert '_' !in collapsed;
    StripCharsNoOp(collapsed, {'_'});
    StripChars(collapsed, {'_'})
  }

  /** The final `strip('_')` of `_normalize_spaces` never removes anything. */
  lemma NormalizeSpacesNoStrip(key: string)
    ensures NormalizeSpaces(key) == CollapseSpaces(ReplaceChar(key, '_', ' '))
  {
    var collapsed := CollapseSpaces(ReplaceChar(key, '_', ' '));
    assert '_' !in collapsed;
    StripCharsNoOp(collapsed, {'_'});
  }

  /** A string without underscores or double spaces is already normalised. */
  lemma NormalizeSpacesFixed(s: string)
    requires '_' !in s && NoDoubleSpace(s)
    ensures NormalizeSpaces(s) == s
  {
    NormalizeSpacesNoStrip(s);
    ReplaceCharNoOp(s, '_', ' ');
    CollapseSpacesNoOp(s);
  }

  /** `NormalizeSpaces` is idempotent. */
  lemma NormalizeSpacesIdempotent(s: string)
    ensures NormalizeSpaces(NormalizeSpaces(s)) == NormalizeSpaces(s)
  {
    NormalizeSpacesFixed(NormalizeSpaces(s));
  }

  /** `_normalize_title`: the empty string stays empty; otherwise the space
      normalisation followed by an upper-cased first character. */
  function NormalizeTitle(key: string): (r: string)
    ensures key == [] <==> r == []
    ensures r != [] ==> r[0] == Upper(NormalizeSpaces(key)[0]) && !IsAsciiLower(r[0])
    ensures r != [] ==> r[1..] == NormalizeSpaces(key)[1..]
    ensures '_' !in r && NoDoubleSpace(r)
  {
    if key == [] then []
    else
      var k := NormalizeSpaces(key);
      UpperFirstKeepsNormal(k);
      [Upper(k[0])] + k[1..]
  }

  /** Upper-casing the first character of a string that has no underscores
      and no double spaces keeps both properties. */
  lemma UpperFirstKeepsNormal(k: string)
    requires k != [] && '_' !in k && NoDoubleSpace(k)
    ensures '_' !in [Upper(k[0])] + k[1..] && NoDoubleSpace([Upper(k[0])] + k[1..])
  {
    var r := [Upper(k[0])] + k[1..];
    assert r[1..] == k[1..];
    assert SameSpaces(k, r);
    NoDoubleSpaceTransfer(k, r);
  }

  /** Lower-casing keeps a string free of underscores and double spaces. */
  lemma LowerAllKeepsNormal(k: string)
    requires '_' !in k && NoDoubleSpace(k)
    ensures '_' !in LowerAll(k) && NoDoubleSpace(LowerAll(k))
  {
    var l := LowerAll(k);
    assert SameSpaces(k, l);
    NoDoubleSpaceTransfer(k, l);
  }

  /** `_normalize_namespace`: like `NormalizeTitle`, but every character after
      the first is lower-cased. */
  function NormalizeNamespace(key: string): (r: string)
    ensures key == [] <==> r == []
    ensures r != [] ==> r[0] == Upper(NormalizeSpaces(key)[0]) && !IsAsciiLower(r[0])
    ensures r != [] ==> r[1..] == LowerAll(NormalizeSpaces(key)[1..])
    ensures '_' !in r && NoDoubleSpace(r)
  {
    if key == [] then []
    else
      var k := NormalizeSpaces(key);
      var u := [Upper(k[0])] + k[1..];
      UpperFirstKeepsNormal(k);
      assert u[1..] == k[1..];
      NoDoubleSpaceTail(u);
      LowerAllKeepsNormal(u[1..]);
      var r := [Upper(k[0])] + LowerAll(k[1..]);
      assert r[1..] == LowerAll(k[1..]);
      assert SameSpaces(u, r);
      NoDoubleSpaceTransfer(u, r);
      r
  }

  /** Normalising a normalised title changes nothing: "Main" stays "Main". */
  lemma NormalizeTitleIdempotent(key: string)
    ensures NormalizeTitle(NormalizeTitle(key)) == NormalizeTitle(key)
  {
    var r := NormalizeTitle(key);
    if r != [] {
      NormalizeSpacesFixed(r);
    }
  }

  /** Normalising a normalised namespace changes nothing. */
  lemma NormalizeNamespaceIdempotent(key: string)
    ensures NormalizeNamespace(NormalizeNamespace(key)) == NormalizeNamespace(key)
  {
    var r := NormalizeNamespace(key);
    if r != [] {
      NormalizeSpacesFixed(r);
      LowerAllIdempotent(NormalizeSpaces(key)[1..]);
      assert Upper(r[0]) == r[0];
      assert [r[0]] + r[1..] == r;
    }
  }

  /** Space normalisation does not look at a leading character that is
      neither a space nor an underscore. */
  lemma {:induction false} NormalizeSpacesFirst(c: char, s: string)
    requires c != ' ' && c != '_'
    ensures NormalizeSpaces([c] + s) == [c] + CollapseSpaces(ReplaceChar(s, '_', ' '))
  {
    NormalizeSpacesNoStrip([c] + s);
    var r := ReplaceChar([c] + s, '_', ' ');
    assert r == [c] + ReplaceChar(s, '_', ' ') by {
      var t := ReplaceChar(s, '_', ' ');
      assert forall i :: 0 <= i < |r| ==> r[i] == ([c] + t)[i];
    }
    assert r[1..] == ReplaceChar(s, '_', ' ');
  }

  /** MediaWiki treats the first letter of a title as case-insensitive:
      "main" and "Main" name the same article. */
  lemma NormalizeTitleFirstLetter(c: char, s: string)
    requires IsAsciiLower(c) || IsAsciiUpper(c)
    ensures NormalizeTitle([Lower(c)] + s) == NormalizeTitle([Upper(c)] + s)
  {
    var x := CollapseSpaces(ReplaceChar(s, '_', ' '));
    UpperLower(c);
    assert Upper(Upper(c)) == Upper(c);
    assert Lower(c) != ' ' && Lower(c) != '_' && Upper(c) != ' ' && Upper(c) != '_';
    NormalizeSpacesFirst(Lower(c), s);
    var a := NormalizeSpaces([Lower(c)] + s);
    assert a == [Lower(c)] + x && a[0] == Lower(c) && a[1..] == x;
    NormalizeSpacesFirst(Upper(c), s);
    var b := NormalizeSpaces([Upper(c)] + s);
    assert b == [Upper(c)] + x && b[0] == Upper(c) && b[1..] == x;
  }

  /** Apart from the first letter, the case of a title matters: a title that
      is free of underscores and double spaces only has its first character
      upper-cased ("main" becomes "Main", "MAIN" stays "MAIN"). */
  lemma NormalizeTitleOfNormal(s: string)
    requires s != [] && '_' !in s && NoDoubleSpace(s)
    ensures NormalizeTitle(s) == [Upper(s[0])] + s[1..]
  {
    NormalizeSpacesFixed(s);
  }

  /** Lower-casing commutes with the space normalisation. */
  lemma {:induction false} CollapseLower(s: string)
    ensures CollapseSpaces(LowerAll(s)) == LowerAll(CollapseSpaces(s))
    decreases |s|
  {
    if |s| >= 2 {
      var l := LowerAll(s);
      assert l[1..] == LowerAll(s[1..]);
      CollapseLower(s[1..]);
    }
  }

  lemma NormalizeSpacesLower(s: string)
    ensures NormalizeSpaces(LowerAll(s)) == LowerAll(NormalizeSpaces(s))
  {
    NormalizeSpacesNoStrip(s);
    NormalizeSpacesNoStrip(LowerAll(s));
    var a := ReplaceChar(LowerAll(s), '_', ' ');
    var b := LowerAll(ReplaceChar(s, '_', ' '));
    assert forall i :: 0 <= i < |a| ==> a[i] == b[i];
    assert a == b;
    CollapseLower(ReplaceChar(s, '_', ' '));
  }

  /** Namespaces are case-insensitive throughout: any two spellings that
      differ only in letter case normalise alike ("template", "TEMPLATE"). */
  lemma NormalizeNamespaceIgnoresCase(a: string, b: string)
    requires LowerAll(a) == LowerAll(b)
    ensures NormalizeNamespace(a) == NormalizeNamespace(b)
  {
    NormalizeNamespaceLower(a);
    NormalizeNamespaceLower(b);
  }

  lemma NormalizeNamespaceLower(a: string)
    ensures NormalizeNamespace(LowerAll(a)) == NormalizeNamespace(a)
  {
    if a != [] {
      var k := NormalizeSpaces(a);
      NormalizeSpacesLower(a);
      var lk := LowerAll(k);
      assert lk == [Lower(k[0])] + LowerAll(k[1..]);
      assert lk[1..] == LowerAll(k[1..]);
      LowerAllIdempotent(k[1..]);
      UpperLower(k[0]);
      assert LowerAll(a) != [];
      assert NormalizeNamespace(LowerAll(a)) == [Upper(lk[0])] + LowerAll(lk[1..]);
      assert NormalizeNamespace(a) == [Upper(k[0])] + LowerAll(k[1..]);
    }
  }

  /** A title split into its three parts (a `namedtuple` in the source). */
  datatype CanonicalTitle = CanonicalTitle(namespace: string, title: string, interwiki: string)
  {
    /** `full_title`: the namespace and the title joined by a colon, or the
        bare title in the main (empty) namespace. */
    function FullTitle(): (r: string)
      ensures namespace == [] ==> r == title
      ensures namespace != [] ==> |r| == |namespace| + 1 + |title|
    {
      if namespace != [] then namespace + ":" + title else title
    }

    /** `link`: the full title with every space turned into an underscore. */
    function Link(): (r: string)
      ensures |r| == |FullTitle()| && ' ' !in r
    {
      ReplaceChar(FullTitle(), ' ', '_')
    }
  }

  /** A full title in a colon-free namespace splits at its first colon into
      the namespace and the parts of the title. */
  lemma FullTitleSplit(ct: CanonicalTitle)
    requires ct.namespace != [] && ':' !in ct.namespace
    ensures Split(ct.FullTitle(), ':') == [ct.namespace] + Split(ct.title, ':')
  {
    SplitPrefix(ct.namespace, ct.title, ':');
  }

  /** A link turns back into its full title when spaces are put back for the
      underscores, provided the title had no underscores of its own. */
  lemma LinkRoundTrip(ct: CanonicalTitle)
    requires '_' !in ct.FullTitle()
    ensures ReplaceChar(ct.Link(), '_', ' ') == ct.FullTitle()
  {
    var f := ct.FullTitle();
    var r := ReplaceChar(ct.Link(), '_', ' ');
    assert forall i :: 0 <= i < |f| ==> r[i] == f[i];
  }

  /** The registered spelling of a namespace, or the namespace itself when
      its normalised form was never registered. */
  function CanonicalNamespace(canonical: map<string, string>, ns: string): (r: string)
    ensures NormalizeNamespace(ns) in canonical ==> r == canonical[NormalizeNamespace(ns)]
    ensures NormalizeNamespace(ns) !in canonical ==> r == ns
  {
    var key := NormalizeNamespace(ns);
    if key in canonical then canonical[key] else ns
  }

  /** The first steps of `canonicalize_title`: underscores become spaces,
      runs of spaces collapse, whitespace is stripped from both ends. */
  function CleanTitle(decoded: string): (t: string)
    ensures '_' !in t && Stripped(t)
    ensures ':' in t ==> ':' in decoded
  {
    var spaced := ReplaceChar(decoded, '_', ' ');
    var collapsed := CollapseSpaces(spaced);
    CleanTitleChars(decoded, spaced, collapsed);
    StripNoChar(collapsed, '_');
    if ':' !in decoded then StripNoChar(collapsed, ':'); Strip(collapsed) else Strip(collapsed)
  }

  lemma CleanTitleChars(decoded: string, spaced: string, collapsed: string)
    requires spaced == ReplaceChar(decoded, '_', ' ') && collapsed == CollapseSpaces(spaced)
    ensures '_' !in collapsed && (':' !in decoded ==> ':' !in collapsed)
  {
    assert '_' !in spaced;
    if ':' !in decoded {
      assert ':' !in spaced;
    }
  }

  /** The (interwiki, namespace, title) pieces of a cleaned title, before
      each is stripped, chosen by its number of colon-separated parts. */
  function Pieces(t: string, defaultNs: string): (p: (string, string, string))
    ensures ':' !in p.0
  {
    var parts := Split(t, ':');
    var hasInterwiki := t != [] && t[0] == ':';
    if |parts| >= 4 then
      var rest := if hasInterwiki then parts[2..] else parts;
      (if hasInterwiki then parts[1] else "", rest[0], Join(rest[1..], ':'))
    else if |parts| == 3 then
      if hasInterwiki then (parts[1], defaultNs, parts[2])
      else ("", parts[0], Join(parts[1..], ':'))
    else if |parts| == 2 then ("", parts[0], parts[1])
    else ("", defaultNs, parts[0])
  }

  /** `canonicalize_title` on an already decoded title: `canonical` maps each
      normalised namespace name to its registered spelling. */
  function Canonicalize(canonical: map<string, string>, decoded: string, defaultNs: string): CanonicalTitle {
    var (interwiki, ns, title) := Pieces(CleanTitle(decoded), defaultNs);
    CanonicalTitle(CanonicalNamespace(canonical, Strip(ns)), NormalizeTitle(Strip(title)), Strip(interwiki))
  }

  /** The interwiki prefix of a canonical title is one stripped, colon-free
      part, and its title is normalised. */
  lemma CanonicalizeParts(canonical: map<string, string>, decoded: string, defaultNs: string)
    ensures var ct := Canonicalize(canonical, decoded, defaultNs);
            ':' !in ct.interwiki && Stripped(ct.interwiki) && NormalizeTitle(ct.title) == ct.title
  {
    var (interwiki, ns, title) := Pieces(CleanTitle(decoded), defaultNs);
    NormalizeTitleIdempotent(Strip(title));
    StripNoChar(interwiki, ':');
  }

  /** Stripping adds no character. */
  lemma StripNoChar(s: string, c: char)
    requires c !in s
    ensures c !in Strip(s)
  {
    var l := LStrip(s, Whitespace);
    LStripKeeps(s, Whitespace);
    RStripKeeps(l, Whitespace);
    assert l == s[|s| - |l|..];
    assert c !in l;
  }

  /** A title without colons is a page of the default namespace, with no
      interwiki prefix. */
  lemma CanonicalizeNoColon(canonical: map<string, string>, decoded: string, defaultNs: string)
    requires ':' !in decoded
    ensures Canonicalize(canonical, decoded, defaultNs)
              == CanonicalTitle(CanonicalNamespace(canonical, Strip(defaultNs)), NormalizeTitle(CleanTitle(decoded)), "")
  {
    var t := CleanTitle(decoded);
    var p := Pieces(t, defaultNs);
    assert Canonicalize(canonical, decoded, defaultNs)
           == CanonicalTitle(CanonicalNamespace(canonical, Strip(p.1)), NormalizeTitle(Strip(p.2)), Strip(p.0));
    PiecesNoColon(t, defaultNs);
    StripCharsNoOp(t, Whitespace);
    StripCharsNoOp([], Whitespace);
  }

  /** A title without colons is all title, in the default namespace. */
  lemma PiecesNoColon(t: string, defaultNs: string)
    requires ':' !in t
    ensures Pieces(t, defaultNs) == ("", defaultNs, t)
  {
    SplitNoSep(t, ':');
  }

  /** A non-empty namespace before the first colon: everything after it is
      the title, colons and all, and there is no interwiki prefix. */
  lemma PiecesNamespace(ns: string, t: string, defaultNs: string)
    requires ns != [] && ':' !in ns
    ensures Pieces(ns + [':'] + t, defaultNs) == ("", ns, t)
  {
    var parts := Split(ns + [':'] + t, ':');
    SplitPrefix(ns, t, ':');
    JoinSplit(t, ':');
    assert parts[1..] == Split(t, ':');
  }

  /** A leading colon and one more colon: an interwiki prefix and a title
      without colons, in the default namespace. */
  lemma PiecesInterwiki(interwiki: string, t: string, defaultNs: string)
    requires ':' !in interwiki && ':' !in t
    ensures Pieces([':'] + interwiki + [':'] + t, defaultNs) == (interwiki, defaultNs, t)
  {
    var s := [':'] + interwiki + [':'] + t;
    assert s == [] + [':'] + (interwiki + [':'] + t);
    SplitPrefix([], interwiki + [':'] + t, ':');
    SplitPrefix(interwiki, t, ':');
    SplitNoSep(t, ':');
    assert Split(s, ':') == [[], interwiki, t];
  }

  /** A leading colon and at least two more: interwiki prefix, namespace, and
      the rest as the title, colons and all. */
  lemma PiecesInterwikiNamespace(interwiki: string, ns: string, t: string, defaultNs: string)
    requires ':' !in interwiki && ':' !in ns
    ensures Pieces([':'] + interwiki + [':'] + ns + [':'] + t, defaultNs) == (interwiki, ns, t)
  {
    var s := [':'] + interwiki + [':'] + ns + [':'] + t;
    assert s == [] + [':'] + (interwiki + [':'] + (ns + [':'] + t));
    SplitPrefix([], interwiki + [':'] + (ns + [':'] + t), ':');
    SplitPrefix(interwiki, ns + [':'] + t, ':');
    SplitPrefix(ns, t, ':');
    JoinSplit(t, ':');
    var parts := Split(s, ':');
    assert parts == [[], interwiki, ns] + Split(t, ':');
    assert parts[2..][1..] == Split(t, ':');
  }

  /** The pieces of a title a canonical title is made of: no underscore, no
      colon, no double space, nothing to strip. */
  ghost predicate PlainPart(s: string) {
    '_' !in s && ':' !in s && NoDoubleSpace(s) && Stripped(s)
  }

  /** Two strings without double spaces joined by a colon have none. */
  lemma NoDoubleSpaceColon(a: string, b: string)
    requires NoDoubleSpace(a) && NoDoubleSpace(b)
    ensures NoDoubleSpace(a + [':'] + b)
  {
    var f := a + [':'] + b;
    forall i
      ensures !DoubleSpaceAt(f, i)
    {
      if 0 <= i && i + 1 < |a| {
        assert !DoubleSpaceAt(a, i);
      } else if i > |a| && i < |f| - 1 {
        assert f[i] == b[i - |a| - 1] && f[i + 1] == b[i - |a|];
        assert !DoubleSpaceAt(b, i - |a| - 1);
      }
    }
  }

  /** A string that is already clean is left alone by `CleanTitle`. */
  lemma CleanTitleFixed(f: string)
    requires '_' !in f && NoDoubleSpace(f) && Stripped(f)
    ensures CleanTitle(f) == f
  {
    ReplaceCharNoOp(f, '_', ' ');
    CollapseSpacesNoOp(f);
    StripCharsNoOp(f, Whitespace);
  }

  /** The full title of plain parts is left alone by `CleanTitle`. */
  lemma CleanFullTitle(ct: CanonicalTitle)
    requires ct.namespace != [] && PlainPart(ct.namespace) && PlainPart(ct.title)
    ensures CleanTitle(ct.FullTitle()) == ct.FullTitle()
  {
    var f := ct.FullTitle();
    var ns, title := ct.namespace, ct.title;
    assert f == ns + [':'] + title;
    NoDoubleSpaceColon(ns, title);
    assert f[0] == ns[0];
    assert f[|f| - 1] == if title == [] then ':' else title[|title| - 1];
    CleanTitleFixed(f);
  }

  /** The link of plain parts cleans back to the full title. */
  lemma CleanLink(ct: CanonicalTitle)
    requires ct.namespace != [] && PlainPart(ct.namespace) && PlainPart(ct.title)
    ensures CleanTitle(ct.Link()) == ct.FullTitle()
  {
    var f := ct.FullTitle();
    assert '_' !in f;
    LinkRoundTrip(ct);
    ReplaceCharNoOp(f, '_', ' ');
    CleanFullTitle(ct);
  }

  /** The full title of plain parts has two colon-separated parts. */
  lemma PiecesFullTitle(ct: CanonicalTitle, defaultNs: string)
    requires ct.namespace != [] && PlainPart(ct.namespace) && PlainPart(ct.title)
    ensures Pieces(ct.FullTitle(), defaultNs) == ("", ct.namespace, ct.title)
  {
    var f := ct.FullTitle();
    FullTitleSplit(ct);
    SplitNoSep(ct.title, ':');
    assert Split(f, ':') == [ct.namespace, ct.title];
  }

  /** Canonicalising the link of a canonical title gives back that title,
      when its namespace is not empty and is known by its own spelling. */
  lemma CanonicalizeLink(canonical: map<string, string>, ct: CanonicalTitle, defaultNs: string)
    requires ct.interwiki == [] && ct.namespace != []
    requires PlainPart(ct.namespace) && PlainPart(ct.title)
    requires NormalizeTitle(ct.title) == ct.title
    requires CanonicalNamespace(canonical, ct.namespace) == ct.namespace
    ensures Canonicalize(canonical, ct.Link(), defaultNs) == ct
  {
    CleanLink(ct);
    PiecesFullTitle(ct, defaultNs);
    CanonicalizeOf(canonical, ct.Link(), defaultNs, "", ct.namespace, ct.title);
    StripCharsNoOp(ct.namespace, Whitespace);
    StripCharsNoOp(ct.title, Whitespace);
    StripCharsNoOp([], Whitespace);
  }

  lemma CanonicalizeOf(canonical: map<string, string>, decoded: string, defaultNs: string,
                       interwiki: string, ns: string, title: string)
    requires Pieces(CleanTitle(decoded), defaultNs) == (interwiki, ns, title)
    ensures Canonicalize(canonical, decoded, defaultNs)
              == CanonicalTitle(CanonicalNamespace(canonical, Strip(ns)), NormalizeTitle(Strip(title)), Strip(interwiki))
  {
  }

  /** The articles of a namespace keyed by normalised title; a later item wins
      over an earlier one with the same normalised name. */
  function NormalizedItems<A>(items: seq<(string, A)>): (m: map<string, A>)
    ensures m.Keys == set i | 0 <= i < |items| :: NormalizeTitle(items[i].0)
  {
    if items == [] then map[]
    else
      var init := NormalizedItems(items[..|items| - 1]);
      var last := items[|items| - 1];
      assert forall i :: 0 <= i < |items| - 1 ==> items[..|items| - 1][i] == items[i];
      init[NormalizeTitle(last.0) := last.1]
  }

  /** The value stored under a normalised name is that of the last item
      carrying it. */
  lemma {:induction false} NormalizedItemsLast<A>(items: seq<(string, A)>, i: nat)
    requires i < |items|
    requires forall j :: i < j < |items| ==> NormalizeTitle(items[j].0) != NormalizeTitle(items[i].0)
    ensures NormalizedItems(items)[NormalizeTitle(items[i].0)] == items[i].1
    decreases |items|
  {
    if i < |items| - 1 {
      var init := items[..|items| - 1];
      assert init[i] == items[i];
      NormalizedItemsLast(init, i);
    }
  }

  /** `Namespace`: article bodies by normalised title. */
  class Namespace<A> {
    var articles: map<string, A>

    /** `Namespace(articles)`: the given items, stored under their normalised
        names. */
    constructor (items: seq<(string, A)>)
      ensures articles == NormalizedItems(items)
    {
      var m: map<string, A> := map[];
      var i := 0;
      while i < |items|
        invariant 0 <= i <= |items|
        invariant m == NormalizedItems(items[..i])
      {
        assert items[..i + 1][..i] == items[..i];
        m := m[NormalizeTitle(items[i].0) := items[i].1];
        i := i + 1;
      }
      assert items[..i] == items;
      articles := m;
    }

    /** `namespace[key]`, with `None` where Python raises `KeyError`. */
    function Get(key: string): (r: Option<A>)
      reads this
      ensures r.Some? <==> NormalizeTitle(key) in articles
      ensures r.Some? ==> r.value == articles[NormalizeTitle(key)]
    {
      var k := NormalizeTitle(key);
      if k in articles then Some(articles[k]) else None
    }

    /** `namespace[key] = value`. */
    method Set(key: string, value: A) returns (r: A)
      modifies this
      ensures articles == old(articles)[NormalizeTitle(key) := value]
      ensures r == value && Get(key) == Some(value)
    {
      articles := articles[NormalizeTitle(key) := value];
      r := value;
    }
  }

  /** A lookup by any spelling with the same normalised title finds what was
      stored: after `ns["main"] = x`, `ns["Main"]` is `x`. */
  lemma LookupNormalized<A>(articles: map<string, A>, key: string, other: string, value: A)
    requires NormalizeTitle(other) == NormalizeTitle(key)
    ensures var m := articles[NormalizeTitle(key) := value];
            NormalizeTitle(other) in m && m[NormalizeTitle(other)] == value
  {
  }

  /** `get_article` once the title is canonical: the article body, or
      `ArticleNotFound` carrying the canonical title. `tables` maps each
      namespace key to the articles of that namespace; the second lookup
      normalises the title again, as `Namespace.__getitem__` does. */
  function Resolve<A>(tables: map<string, map<string, A>>, ct: CanonicalTitle): (r: Result<A, CanonicalTitle>)
    ensures r.Err? ==> r.error == ct
  {
    if ct.namespace in tables && NormalizeTitle(ct.title) in tables[ct.namespace]
    then Ok(tables[ct.namespace][NormalizeTitle(ct.title)])
    else Err(ct)
  }

  /** For a canonical title the article is found exactly when its namespace
      is a key of the tables and its title a key of that namespace. */
  lemma ResolveFound<A>(tables: map<string, map<string, A>>, canonical: map<string, string>,
                        decoded: string, defaultNs: string)
    ensures var ct := Canonicalize(canonical, decoded, defaultNs);
            (Resolve(tables, ct).Ok? <==> (ct.namespace in tables && ct.title in tables[ct.namespace]))
  {
    CanonicalizeParts(canonical, decoded, defaultNs);
  }

  /** The tables are keyed by normalised namespace names while the lookup uses
      the registered spelling, so a namespace registered as "MediaWiki"
      (normalised "Mediawiki") is never found. */
  lemma UnnormalizedNamespaceMisses<A>(tables: map<string, map<string, A>>, ct: CanonicalTitle)
    requires forall k :: k in tables ==> NormalizeNamespace(k) == k
    requires NormalizeNamespace(ct.namespace) != ct.namespace
    ensures Resolve(tables, ct) == Err(ct)
  {
  }

  /** `ArticleResolver`: the registered namespaces, keyed by normalised name,
      and the spelling each was registered under. */
  class ArticleResolver<A> {
    var namespaces: map<string, Namespace<A>>
    var canonicalNamespaces: map<string, string>

    /** Both maps share their keys, and every key is the normalised form of
        the spelling recorded for it. */
    predicate Valid()
      reads this
    {
      && namespaces.Keys == canonicalNamespaces.Keys
      && forall k :: k in canonicalNamespaces ==> NormalizeNamespace(canonicalNamespaces[k]) == k
    }

    constructor ()
      ensures Valid() && namespaces == map[] && canonicalNamespaces == map[]
    {
      namespaces := map[];
      canonicalNamespaces := map[];
    }

    /** `add_namespace`: registers `ns` under the normalised name and
        remembers the spelling `name`. */
    method AddNamespace(name: string, ns: Namespace<A>)
      requires Valid()
      modifies this
      ensures Valid()
      ensures namespaces == old(namespaces)[NormalizeNamespace(name) := ns]
      ensures canonicalNamespaces == old(canonicalNamespaces)[NormalizeNamespace(name) := name]
    {
      namespaces := namespaces[NormalizeNamespace(name) := ns];
      canonicalNamespaces := canonicalNamespaces[NormalizeNamespace(name) := name];
    }

    /** `canonicalize_title`; `decode` stands for `html.unescape(unquote(.))`. */
    function CanonicalizeTitle(decode: string -> string, title: string, defaultNs: string): (ct: CanonicalTitle)
      reads this
      ensures ct == Canonicalize(canonicalNamespaces, decode(title), defaultNs)
    {
      Canonicalize(canonicalNamespaces, decode(title), defaultNs)
    }

    /** The articles of every registered namespace. */
    function Tables(): map<string, map<string, A>>
      reads this, namespaces.Values
    {
      map k | k in namespaces :: namespaces[k].articles
    }

    /** `get_article`: the body of the article, or `ArticleNotFound` with the
        canonical title. */
    method GetArticle(decode: string -> string, name: string, defaultNs: string) returns (r: Result<A, CanonicalTitle>)
      ensures r == Resolve(Tables(), CanonicalizeTitle(decode, name, defaultNs))
    {
      var ct := CanonicalizeTitle(decode, name, defaultNs);
      ghost var tables := Tables();
      if ct.namespace in namespaces {
        assert tables[ct.namespace] == namespaces[ct.namespace].articles;
        var found := namespaces[ct.namespace].Get(ct.title);
        if found.Some? {
          return Ok(found.value);
        }
      }
      return Err(ct);
    }

    /** Every key of a valid resolver is in normalised form, so a lookup under
        a spelling that is not fails. */
    lemma KeysNormalized()
      requires Valid()
      ensures forall k :: k in Tables() ==> NormalizeNamespace(k) == k
    {
      forall k | k in Tables()
        ensures NormalizeNamespace(k) == k
      {
        NormalizeNamespaceIdempotent(canonicalNamespaces[k]);
      }
    }
  }
}
