/**
  The agent catalog (catalog.go) and the two normal forms of a name (agents.go): the indexes
  built once against a search through the list. Nothing is assumed of the Unicode tables but
  what `AlphabetOk` says.
 */
module Catalog {
  import opened Text

  // ---------- Letters ----------

  /** What the names need of the Unicode tables: the letters and digits, and their lower case. */
  datatype Alphabet = Alphabet(letter: char -> bool, lower: char -> char)

  ghost predicate AlphabetOk(a: Alphabet)
  {
    && (forall c :: a.lower(a.lower(c)) == a.lower(c))
    && (forall c :: a.letter(c) ==>
          a.letter(a.lower(c)) && !IsSpace(c) && !IsEdge(c) && c != '-' && c != '_' && c != '@')
    && (forall c :: c < '\U{0080}' ==> a.lower(c) == ToLowerChar(c) && (a.letter(c) <==> AsciiLetter(c)))
  }

  predicate AsciiLetter(c: char) { 'a' <= c <= 'z' || 'A' <= c <= 'Z' || IsDigit(c) }

  type Unicode = a: Alphabet | AlphabetOk(a) witness Alphabet(AsciiLetter, ToLowerChar)

  const UNICODE: Unicode

  predicate IsLetter(c: char) { UNICODE.letter(c) }

  function LowerChar(c: char): char { UNICODE.lower(c) }

  function Lower(s: string): (r: string)
    ensures |r| == |s| && forall i :: 0 <= i < |s| ==> r[i] == LowerChar(s[i])
  {
    seq(|s|, i requires 0 <= i < |s| => LowerChar(s[i]))
  }

  // ---------- Names as people type them ----------

  predicate IsEdge(c: char)
  {
    || c == ' ' || c == '\t' || c == '\r' || c == '\n' || c == ':' || c == ',' || c == '.' || c == '!' || c == '?'
    || c == '(' || c == ')' || c == '[' || c == ']' || c == '{' || c == '}' || c == '<' || c == '>'
  }

  function TrimAt(s: string): string { if HasPrefix(s, "@") then s[1..] else s }

  function NormalizeLookup(s: string): string
  {
    Trim(TrimAt(TrimSpace(Lower(s))), IsEdge)
  }

  predicate IsLower(s: string) { forall c :: c in s ==> LowerChar(c) == c }

  /** The texts that normalizing leaves alone. */
  predicate LookupNormal(s: string)
  {
    IsLower(s) && Trimmed(s, IsSpace) && Trimmed(s, IsEdge) && (s == "" || s[0] != '@')
  }

  lemma LowerIsLower(s: string)
    ensures IsLower(Lower(s))
    ensures IsLower(s) ==> Lower(s) == s
  {
  }

  /** A normalized name is in lower case and has no punctuation at its ends. */
  lemma LookupResult(s: string)
    ensures IsLower(NormalizeLookup(s)) && Trimmed(NormalizeLookup(s), IsEdge)
  {
    var lower := Lower(s);
    var spaced := TrimSpace(lower);
    var bare := TrimAt(spaced);
    LowerIsLower(s);
    TrimIsTrimmed(lower, IsSpace);
    TrimIsTrimmed(bare, IsEdge);
    assert forall c :: c in bare ==> c in spaced;
  }

  lemma NormalIsFixed(s: string)
    requires LookupNormal(s)
    ensures NormalizeLookup(s) == s
  {
    LowerIsLower(s);
    TrimIsTrimmed(s, IsSpace);
    TrimIsTrimmed(s, IsEdge);
  }

  lemma LookupFixed(s: string)
    ensures NormalizeLookup(s) == s <==> LookupNormal(s)
  {
    if LookupNormal(s) {
      NormalIsFixed(s);
    }
    if NormalizeLookup(s) == s {
      LookupResult(s);
      LowerIsLower(s);
      TrimShrinks(s, IsSpace);
      TrimShrinks(TrimAt(TrimSpace(s)), IsEdge);
      TrimIsTrimmed(s, IsSpace);
      assert TrimSpace(s) == s && TrimAt(s) == s;
    }
  }

  /**
    Normalizing twice is normalizing once unless an at sign is left in front, or white space
    that is no punctuation (a vertical tab, say) at an end.
   */
  lemma LookupIdempotentExactly(s: string)
    ensures var r := NormalizeLookup(s);
            NormalizeLookup(r) == r <==> r == "" || (r[0] != '@' && !IsSpace(r[0]) && !IsSpace(r[|r| - 1]))
  {
    LookupResult(s);
    LookupFixed(NormalizeLookup(s));
  }

  const PUNCTUATION := " \t\r\n:,.!?()[]{}<>"

  lemma EdgeExactly(c: char)
    ensures IsEdge(c) <==> c in PUNCTUATION
  {
    var p := PUNCTUATION;
    assert p[..9] == [' ', '\t', '\r', '\n', ':', ',', '.', '!', '?'];
    assert p[9..] == ['(', ')', '[', ']', '{', '}', '<', '>'];
    assert c in p <==> c in p[..9] || c in p[9..];
  }

  /** Of anything in front that goes, a text that starts with what stays, and anything behind it that goes. */
  lemma TrimAround(pad: string, core: string, tail: string, cut: char -> bool)
    requires core != "" && Trimmed(core, cut)
    requires (forall c :: c in pad ==> cut(c)) && (forall c :: c in tail ==> cut(c))
    ensures Trim(pad + core + tail, cut) == core
  {
    TrimFront(pad, core + tail, cut);
    assert pad + core + tail == pad + (core + tail);
    TrimBack(core, tail, cut);
  }

  lemma {:induction false} TrimFront(pad: string, s: string, cut: char -> bool)
    requires s != "" && !cut(s[0]) && forall c :: c in pad ==> cut(c)
    ensures TrimLeft(pad + s, cut) == s
  {
    if pad == "" {
      assert pad + s == s;
    } else {
      assert pad[0] in pad && (pad + s)[1..] == pad[1..] + s;
      TrimFront(pad[1..], s, cut);
    }
  }

  lemma {:induction false} TrimBack(s: string, tail: string, cut: char -> bool)
    requires s != "" && !cut(s[|s| - 1]) && forall c :: c in tail ==> cut(c)
    ensures TrimRight(s + tail, cut) == s
    decreases |tail|
  {
    if tail == "" {
      assert s + tail == s;
    } else {
      assert tail[|tail| - 1] in tail && (s + tail)[..|s + tail| - 1] == s + tail[..|tail| - 1];
      TrimBack(s, tail[..|tail| - 1], cut);
    }
  }

  /**
    A name is found in a mention of it: in any case, with white space in front, an at sign, and
    punctuation around it.
   */
  lemma MentionIsName(typed: string, pad: string, at: bool, left: string, name: string, right: string)
    requires Lower(typed) == pad + ((if at then "@" else "") + left + name + right)
    requires (forall c :: c in pad ==> IsSpace(c)) && forall c :: c in left + right ==> c in PUNCTUATION
    requires name != "" && !IsSpace(name[0]) && !IsSpace(name[|name| - 1]) && name[0] != '@'
    requires name[0] !in PUNCTUATION && name[|name| - 1] !in PUNCTUATION
    ensures NormalizeLookup(typed) == name
  {
    hide Lower, Trim, TrimLeft, TrimRight, IsSpace, IsEdge, PUNCTUATION;
    var spaced := TrimSpace(Lower(typed));
    var left', right' := left, right;
    if at {
      var core := "@" + left + name;
      assert pad + ("@" + left + name + right) == pad + core + right;
      AtIsNoSpace();
      var i, j := TrimWithin(pad, core, right, IsSpace);
      right' := right[..j];
      assert spaced == "@" + (left + name + right');
      assert TrimAt(spaced) == left + name + right';
    } else {
      assert pad + ("" + left + name + right) == pad + left + name + right;
      var i, j := TrimWithin(pad + left, name, right, IsSpace);
      left', right' := (pad + left)[i..], right[..j];
      assert i < |pad + left| ==> i >= |pad| && left' == left[i - |pad|..];
      assert left' != "" ==> left'[0] in left + right;
      AtIsNoPunctuation();
      assert spaced == left' + name + right' && spaced[0] == if left' != "" then left'[0] else name[0];
      assert TrimAt(spaced) == left' + name + right';
    }
    forall c
      ensures IsEdge(c) <==> c in PUNCTUATION
    {
      EdgeExactly(c);
    }
    assert forall c :: c in left' || c in right' ==> c in left + right;
    TrimAround(left', name, right', IsEdge);
  }

  lemma AtIsNoSpace()
    ensures !IsSpace('@')
  {
  }

  lemma AtIsNoPunctuation()
    ensures '@' !in PUNCTUATION
  {
    EdgeExactly('@');
  }

  /** Trimming keeps a core that needs none. */
  lemma TrimWithin(pre: string, core: string, post: string, cut: char -> bool) returns (i: nat, j: nat)
    requires core != "" && Trimmed(core, cut)
    ensures i <= |pre| && j <= |post| && Trim(pre + core + post, cut) == pre[i..] + core + post[..j]
    ensures i < |pre| ==> !cut(pre[i])
  {
    var s := pre + core + post;
    TrimLeftSuffix(s, cut);
    var t := TrimLeft(s, cut);
    assert s[|pre|] == core[0];
    i := |s| - |t|;
    assert t == pre[i..] + core + post;
    TrimRightPrefix(t, cut);
    var r := TrimRight(t, cut);
    var last := |pre| - i + |core| - 1;
    assert t[last] == core[|core| - 1];
    j := |r| - last - 1;
    assert r == t[..|r|] == pre[i..] + core + post[..j];
  }

  // ---------- Slugs ----------

  predicate IsSlugChar(c: char) { (IsLetter(c) && LowerChar(c) == c) || c == '-' }

  predicate EndsInDash(s: string) { s != "" && s[|s| - 1] == '-' }

  function SlugAdd(b: string, r: char): string
  {
    if IsLetter(r) then b + [LowerChar(r)]
    else if r == '-' || r == '_' || IsSpace(r) then if b != "" && !EndsInDash(b) then b + "-" else b
    else b
  }

  function Slugged(b: string, s: string): string
    decreases |s|
  {
    if s == "" then b else Slugged(SlugAdd(b, s[0]), s[1..])
  }

  predicate IsDash(c: char) { c == '-' }

  function NormalizeSlug(s: string): string
  {
    Trim(Slugged("", NormalizeLookup(s)), IsDash)
  }

  method BuildSlug(requested: string) returns (slug: string)
    ensures slug == NormalizeSlug(requested)
  {
    var s := NormalizeLookup(requested);
    if s == "" {
      return "";
    }
    var b, lastDash := "", false;
    for i := 0 to |s|
      invariant lastDash <==> EndsInDash(b)
      invariant Slugged("", s) == Slugged(b, s[i..])
    {
      var r := s[i];
      assert s[i..][0] == r && s[i..][1..] == s[i + 1..];
      if IsLetter(r) {
        b := b + [LowerChar(r)];
        lastDash := false;
      } else if r == '-' || r == '_' || IsSpace(r) {
        if !lastDash && |b| > 0 {
          b := b + "-";
          lastDash := true;
        }
      }
    }
    slug := Trim(b, IsDash);
  }

  /** No dash in front and no two dashes in a row. */
  predicate SlugPrefix(s: string)
  {
    && (forall c :: c in s ==> IsSlugChar(c))
    && (s != "" ==> s[0] != '-')
    && forall i :: 0 < i < |s| && s[i] == '-' ==> s[i - 1] != '-'
  }

  predicate IsSlug(s: string)
  {
    SlugPrefix(s) && !EndsInDash(s)
  }

  lemma {:induction false} SluggedPrefix(b: string, s: string)
    requires SlugPrefix(b)
    ensures SlugPrefix(Slugged(b, s))
    decreases |s|
  {
    if s != "" {
      SluggedPrefix(SlugAdd(b, s[0]), s[1..]);
    }
  }

  lemma {:induction false} SluggedKeeps(b: string, s: string)
    requires SlugPrefix(b + s)
    ensures Slugged(b, s) == b + s
    decreases |s|
  {
    if s == "" {
      assert b + s == b;
    } else {
      var c := (b + s)[|b|];
      assert c == s[0] && c in b + s;
      assert IsSlugChar(c) && (c == '-' ==> b != "" && (b + s)[|b| - 1] != '-');
      assert b + [c] + s[1..] == b + s;
      assert SlugAdd(b, c) == b + [c];
      SluggedKeeps(b + [c], s[1..]);
    }
  }

  lemma TrimDash(s: string)
    requires SlugPrefix(s)
    ensures IsSlug(Trim(s, IsDash))
  {
    TrimIsTrimmed(s, IsDash);
    TrimLeftSuffix(s, IsDash);
    assert TrimLeft(s, IsDash) == s;
    TrimRightPrefix(s, IsDash);
  }

  /** Every result is a slug, and a slug is its own result: normalizing is idempotent. */
  lemma NormalizeSlugIsSlug(s: string)
    ensures IsSlug(NormalizeSlug(s))
    ensures NormalizeSlug(s) == s <==> IsSlug(s)
    ensures NormalizeSlug(NormalizeSlug(s)) == NormalizeSlug(s)
  {
    SlugResult(s);
    var r := NormalizeSlug(s);
    if IsSlug(s) {
      SlugFixed(s);
    }
    SlugFixed(r);
  }

  lemma SlugResult(s: string)
    ensures IsSlug(NormalizeSlug(s))
  {
    SluggedPrefix("", NormalizeLookup(s));
    TrimDash(Slugged("", NormalizeLookup(s)));
  }

  lemma SlugIsNormal(s: string)
    requires IsSlug(s)
    ensures LookupNormal(s)
  {
    if s != "" {
      assert s[0] in s && s[|s| - 1] in s;
      assert IsSlugChar(s[0]) && IsSlugChar(s[|s| - 1]);
    }
  }

  lemma SlugFixed(s: string)
    requires IsSlug(s)
    ensures NormalizeSlug(s) == s && NormalizeLookup(s) == s
  {
    SlugIsNormal(s);
    NormalIsFixed(s);
    assert "" + s == s;
    SluggedKeeps("", s);
    TrimIsTrimmed(s, IsDash);
  }

  // ---------- Words ----------

  predicate IsBreak(c: char) { c == '-' || c == '_' || IsSpace(c) }

  /** The letters of a text in words, broken at dashes, underscores and white space; the last one may go on. */
  function Words(s: string): (r: (seq<string>, string))
    ensures forall w :: w in r.0 ==> w != "" && !EndsInDash(w)
    ensures !EndsInDash(r.1)
  {
    if s == "" then ([], "")
    else
      var (words, word) := Words(s[..|s| - 1]);
      var c := s[|s| - 1];
      if IsLetter(c) then (words, word + [LowerChar(c)])
      else if IsBreak(c) && word != "" then (words + [word], "")
      else (words, word)
  }

  function AllWords(s: string): seq<string>
  {
    Words(s).0 + if Words(s).1 == "" then [] else [Words(s).1]
  }

  /** Words with a dash between them. */
  function Dashed(words: seq<string>): string
  {
    if |words| == 0 then ""
    else if |words| == 1 then words[0]
    else Dashed(words[..|words| - 1]) + "-" + words[|words| - 1]
  }

  lemma {:induction false} SluggedSnoc(b: string, s: string, c: char)
    ensures Slugged(b, s + [c]) == SlugAdd(Slugged(b, s), c)
    decreases |s|
  {
    if s == "" {
      assert (s + [c])[1..] == "";
      assert Slugged(SlugAdd(b, c), "") == SlugAdd(b, c);
    } else {
      assert (s + [c])[0] == s[0] && (s + [c])[1..] == s[1..] + [c];
      SluggedSnoc(SlugAdd(b, s[0]), s[1..], c);
    }
  }

  lemma DashedSnoc(words: seq<string>, word: string)
    ensures Dashed(words + [word]) == if words == [] then word else Dashed(words) + "-" + word
  {
    assert (words + [word])[..|words + [word]| - 1] == words;
  }

  /** The slug before it is trimmed: the words that are over, and the one that goes on. */
  function Unfinished(words: seq<string>, word: string): string
  {
    if words == [] then word else Dashed(words) + "-" + word
  }

  lemma {:induction false} SluggedIsWords(s: string)
    ensures Slugged("", s) == Unfinished(Words(s).0, Words(s).1)
    decreases |s|
  {
    if s != "" {
      hide Slugged, SlugAdd, Unfinished, IsLetter, IsBreak, EndsInDash;
      var before, c := s[..|s| - 1], s[|s| - 1];
      var (words, word) := Words(before);
      SluggedIsWords(before);
      SluggedSnoc("", before, c);
      assert before + [c] == s;
      WordGoesOn(words, word, c);
    }
  }

  lemma WordGoesOn(words: seq<string>, word: string, c: char)
    requires (forall w :: w in words ==> w != "" && !EndsInDash(w)) && !EndsInDash(word)
    ensures SlugAdd(Unfinished(words, word), c)
         == if IsLetter(c) then Unfinished(words, word + [LowerChar(c)])
            else if IsBreak(c) && word != "" then Unfinished(words + [word], "")
            else Unfinished(words, word)
  {
    var b := Unfinished(words, word);
    DashedSnoc(words, word);
    if IsLetter(c) {
      assert Dashed(words) + "-" + (word + [LowerChar(c)]) == Dashed(words) + "-" + word + [LowerChar(c)];
    } else if word != "" {
      assert b[|b| - 1] == word[|word| - 1];
      assert b + "-" + "" == b + "-";
    } else if words != [] {
      assert b == Dashed(words) + "-";
    }
  }

  /** A slug is the request's words in lower case with single dashes between them; all other characters go. */
  lemma SlugIsWords(s: string)
    ensures NormalizeSlug(s) == Dashed(AllWords(NormalizeLookup(s)))
  {
    var t := NormalizeLookup(s);
    var (words, word) := Words(t);
    var b := Slugged("", t);
    hide Slugged, Words, NormalizeLookup;
    SluggedIsWords(t);
    SluggedPrefix("", t);
    TrimLeftSuffix(b, IsDash);
    assert TrimLeft(b, IsDash) == b;
    UnfinishedTrimmed(words, word);
  }

  /** Only a dash after the last word is trimmed. */
  lemma UnfinishedTrimmed(words: seq<string>, word: string)
    requires (forall w :: w in words ==> w != "" && !EndsInDash(w)) && !EndsInDash(word)
    ensures TrimRight(Unfinished(words, word), IsDash) == Dashed(words + if word == "" then [] else [word])
  {
    var b := Unfinished(words, word);
    DashedSnoc(words, word);
    if word != "" {
      assert b[|b| - 1] == word[|word| - 1];
    } else if words != [] {
      assert b[..|b| - 1] == Dashed(words);
      var last := words[|words| - 1];
      assert last in words;
      assert Dashed(words)[|Dashed(words)| - 1] == last[|last| - 1];
      assert words + [] == words;
    }
  }

  // ---------- The catalog ----------

  datatype CatalogEntry = CatalogEntry(slug: string, displayName: string, description: string, prompt: string)

  datatype Profile = Profile(slug: string, displayName: string, sxBot: string, slackAliases: seq<string>)

  function ProfileOf(e: CatalogEntry): Profile
  {
    Profile(NormalizeSlug(e.slug), TrimSpace(e.displayName), "", [])
  }

  /** What a profile answers to, normalized. */
  function Tokens(p: Profile): (r: seq<string>)
    ensures |r| == 3 + |p.slackAliases|
  {
    [NormalizeLookup(p.slug), NormalizeLookup(p.displayName), NormalizeLookup(p.sxBot)]
    + seq(|p.slackAliases|, i requires 0 <= i < |p.slackAliases| => NormalizeLookup(p.slackAliases[i]))
  }

  /** Does the token, normalized, name this profile? */
  predicate Matches(p: Profile, token: string)
  {
    NormalizeLookup(token) != "" && NormalizeLookup(token) in Tokens(p)
  }

  predicate Hit(e: CatalogEntry, t: string)
  {
    ProfileOf(e).slug != "" && t in Tokens(ProfileOf(e))
  }

  /** The position of the first element that passes, or the length. */
  function First<T>(xs: seq<T>, passes: T -> bool): (i: nat)
    ensures i <= |xs|
  {
    if xs == [] || passes(xs[0]) then 0 else 1 + First(xs[1..], passes)
  }

  lemma {:induction false} FirstIsFirst<T>(xs: seq<T>, passes: T -> bool)
    ensures First(xs, passes) < |xs| ==> passes(xs[First(xs, passes)])
    ensures forall j :: 0 <= j < First(xs, passes) ==> !passes(xs[j])
  {
    if xs != [] && !passes(xs[0]) {
      FirstIsFirst(xs[1..], passes);
      forall j | 0 < j < First(xs, passes)
        ensures !passes(xs[j])
      {
        assert xs[j] == xs[1..][j - 1];
      }
    }
  }

  lemma {:induction false} FirstSnoc<T>(xs: seq<T>, x: T, passes: T -> bool)
    ensures var i := First(xs, passes);
            First(xs + [x], passes) == if i < |xs| || passes(x) then i else i + 1
  {
    if xs == [] {
      assert (xs + [x])[1..] == [];
    } else {
      assert (xs + [x])[1..] == xs[1..] + [x];
      FirstSnoc(xs[1..], x, passes);
    }
  }

  lemma {:induction false} FirstUnique<T>(xs: seq<T>, passes: T -> bool, i: nat)
    requires i < |xs| && passes(xs[i]) && forall j :: 0 <= j < i ==> !passes(xs[j])
    ensures First(xs, passes) == i
  {
    if i > 0 {
      assert forall j :: 0 < j <= i ==> xs[j] == xs[1..][j - 1];
      FirstUnique(xs[1..], passes, i - 1);
    }
  }

  /** The last element that passes. */
  function Last<T>(xs: seq<T>, passes: T -> bool): Option<T>
  {
    if xs == [] then None
    else if passes(xs[|xs| - 1]) then Some(xs[|xs| - 1])
    else Last(xs[..|xs| - 1], passes)
  }

  lemma {:induction false} LastUnique<T>(xs: seq<T>, passes: T -> bool, i: nat)
    requires i < |xs| && passes(xs[i]) && forall j :: i < j < |xs| ==> !passes(xs[j])
    ensures Last(xs, passes) == Some(xs[i])
  {
    if i < |xs| - 1 {
      LastUnique(xs[..|xs| - 1], passes, i);
    }
  }

  /** The search that the name index replaces: the first entry with a slug and this name. */
  function FirstNamed(entries: seq<CatalogEntry>, t: string): Option<CatalogEntry>
  {
    var i := First(entries, (e: CatalogEntry) => Hit(e, t));
    if i < |entries| then Some(entries[i]) else None
  }

  function LastWithSlug(entries: seq<CatalogEntry>, slug: string): Option<CatalogEntry>
  {
    Last(entries, (e: CatalogEntry) => NormalizeSlug(e.slug) == slug)
  }

  type Index = map<string, CatalogEntry>

  function Get(index: Index, key: string): Option<CatalogEntry>
  {
    if key in index then Some(index[key]) else None
  }

  function Or(a: Option<CatalogEntry>, b: Option<CatalogEntry>): Option<CatalogEntry>
  {
    if a.Some? then a else b
  }

  /** The index took up the entry under the token, unless it already had the token. */
  ghost predicate AddedName(before: Index, after: Index, e: CatalogEntry, token: string)
  {
    forall t :: t != "" ==> Get(after, t) == Or(Get(before, t), if token == t then Some(e) else None)
  }

  ghost predicate AddedNames(before: Index, after: Index, e: CatalogEntry, tokens: seq<string>)
  {
    forall t :: t != "" ==> Get(after, t) == Or(Get(before, t), if t in tokens then Some(e) else None)
  }

  lemma OneMoreName(before: Index, mid: Index, after: Index, e: CatalogEntry, tokens: seq<string>, n: nat)
    requires n < |tokens| && AddedNames(before, mid, e, tokens[..n]) && AddedName(mid, after, e, tokens[n])
    ensures AddedNames(before, after, e, tokens[..n + 1])
  {
    assert tokens[..n + 1] == tokens[..n] + [tokens[n]];
  }

  method AddCatalogLookup(index: Index, entry: CatalogEntry, value: string) returns (index': Index)
    ensures AddedName(index, index', entry, NormalizeLookup(value))
  {
    index' := index;
    var token := NormalizeLookup(value);
    if token == "" {
      return;
    }
    if token in index {
      return;
    }
    index' := index[token := entry];
  }

  /** The names of one entry's profile, in order. */
  method AddNames(index: Index, entry: CatalogEntry, p: Profile) returns (index': Index)
    ensures AddedNames(index, index', entry, Tokens(p))
  {
    hide NormalizeLookup;
    ghost var tokens := Tokens(p);
    index' := AddCatalogLookup(index, entry, p.slug);
    OneMoreName(index, index, index', entry, tokens, 0);
    ghost var before := index';
    index' := AddCatalogLookup(index', entry, p.displayName);
    OneMoreName(index, before, index', entry, tokens, 1);
    before := index';
    index' := AddCatalogLookup(index', entry, p.sxBot);
    OneMoreName(index, before, index', entry, tokens, 2);
    for i := 0 to |p.slackAliases|
      invariant AddedNames(index, index', entry, tokens[..3 + i])
    {
      before := index';
      index' := AddCatalogLookup(index', entry, p.slackAliases[i]);
      OneMoreName(index, before, index', entry, tokens, 3 + i);
    }
    assert tokens[..|tokens|] == tokens;
  }

  lemma FirstNamedSnoc(entries: seq<CatalogEntry>, e: CatalogEntry, t: string)
    ensures FirstNamed(entries + [e], t) == Or(FirstNamed(entries, t), if Hit(e, t) then Some(e) else None)
  {
    FirstSnoc(entries, e, (x: CatalogEntry) => Hit(x, t));
  }

  ghost predicate IndexedBySlug(index: Index, entries: seq<CatalogEntry>)
  {
    forall slug :: slug != "" ==> Get(index, slug) == LastWithSlug(entries, slug)
  }

  ghost predicate IndexedByName(index: Index, entries: seq<CatalogEntry>)
  {
    forall t :: t != "" ==> Get(index, t) == FirstNamed(entries, t)
  }

  lemma LastWithSlugSnoc(entries: seq<CatalogEntry>, e: CatalogEntry, slug: string)
    ensures LastWithSlug(entries + [e], slug)
         == if NormalizeSlug(e.slug) == slug then Some(e) else LastWithSlug(entries, slug)
  {
    assert (entries + [e])[..|entries|] == entries;
  }

  lemma SlugIndexGrows(index: Index, done: seq<CatalogEntry>, e: CatalogEntry)
    requires IndexedBySlug(index, done)
    ensures var slug := ProfileOf(e).slug;
            IndexedBySlug(if slug == "" then index else index[slug := e], done + [e])
  {
    forall slug
      ensures LastWithSlug(done + [e], slug)
           == if NormalizeSlug(e.slug) == slug then Some(e) else LastWithSlug(done, slug)
    {
      LastWithSlugSnoc(done, e, slug);
    }
  }

  lemma NameIndexGrows(before: Index, after: Index, done: seq<CatalogEntry>, e: CatalogEntry)
    requires IndexedByName(before, done)
    requires if ProfileOf(e).slug == "" then after == before else AddedNames(before, after, e, Tokens(ProfileOf(e)))
    ensures IndexedByName(after, done + [e])
  {
    forall t | t != ""
      ensures Get(after, t) == FirstNamed(done + [e], t)
    {
      FirstNamedSnoc(done, e, t);
    }
  }

  /** One turn of the loop that builds the indexes. */
  method IndexEntry(bySlug: Index, byName: Index, entry: CatalogEntry, ghost done: seq<CatalogEntry>)
    returns (bySlug': Index, byName': Index)
    requires IndexedBySlug(bySlug, done) && IndexedByName(byName, done)
    ensures IndexedBySlug(bySlug', done + [entry]) && IndexedByName(byName', done + [entry])
  {
    var p := ProfileOf(entry);
    bySlug', byName' := bySlug, byName;
    SlugIndexGrows(bySlug, done, entry);
    if p.slug != "" {
      bySlug' := bySlug[p.slug := entry];
      byName' := AddNames(byName, entry, p);
    }
    NameIndexGrows(byName, byName', done, entry);
  }

  class CatalogIndexes {
    const entries: seq<CatalogEntry>
    var indexed: bool
    var bySlug: Index
    var byName: Index

    ghost predicate Valid()
      reads this
    {
      indexed ==> IndexedBySlug(bySlug, entries) && IndexedByName(byName, entries)
    }

    constructor (entries: seq<CatalogEntry>)
      ensures Valid() && this.entries == entries
    {
      this.entries := entries;
      this.indexed := false;
      this.bySlug, this.byName := map[], map[];
    }

    method EnsureIndexes()
      requires Valid()
      modifies this
      ensures Valid() && indexed
    {
      if indexed {
        return;
      }
      var slugs: Index, names: Index := map[], map[];
      for i := 0 to |entries|
        invariant IndexedBySlug(slugs, entries[..i]) && IndexedByName(names, entries[..i])
      {
        assert entries[..i] + [entries[i]] == entries[..i + 1];
        slugs, names := IndexEntry(slugs, names, entries[i], entries[..i]);
      }
      assert entries[..|entries|] == entries;
      bySlug, byName, indexed := slugs, names, true;
    }

    method GetCatalogEntry(requested: string) returns (entry: Option<CatalogEntry>)
      requires Valid()
      modifies this
      ensures Valid()
      ensures entry == LookupSlug(entries, requested)
    {
      var slug := BuildSlug(requested);
      if slug == "" {
        return None;
      }
      EnsureIndexes();
      entry := Get(bySlug, slug);
    }

    method FindCatalogProfile(requested: string) returns (profile: Option<Profile>)
      requires Valid()
      modifies this
      ensures Valid()
      ensures profile == match SearchCatalog(entries, requested) case Some(e) => Some(ProfileOf(e)) case None => None
    {
      var token := NormalizeLookup(requested);
      if token == "" {
        return None;
      }
      EnsureIndexes();
      if token in byName {
        assert Get(byName, token) == FirstNamed(entries, token);
        return Some(ProfileOf(byName[token]));
      }
      assert Get(byName, token) == FirstNamed(entries, token);
      profile := None;
    }
  }

  function LookupSlug(entries: seq<CatalogEntry>, requested: string): Option<CatalogEntry>
  {
    if NormalizeSlug(requested) == "" then None else LastWithSlug(entries, NormalizeSlug(requested))
  }

  function SearchCatalog(entries: seq<CatalogEntry>, requested: string): Option<CatalogEntry>
  {
    if NormalizeLookup(requested) == "" then None else FirstNamed(entries, NormalizeLookup(requested))
  }

  // ---------- What the lookups find ----------

  /** A profile that can be found, for the request as it was typed. */
  predicate Wanted(e: CatalogEntry, requested: string)
  {
    ProfileOf(e).slug != "" && Matches(ProfileOf(e), requested)
  }

  lemma WantedIsHit(e: CatalogEntry, requested: string)
    ensures Wanted(e, requested) <==> NormalizeLookup(requested) != "" && Hit(e, NormalizeLookup(requested))
  {
  }

  /** The name lookup finds the first entry with a slug whose profile matches the request, if any does. */
  lemma SearchFindsFirstMatch(entries: seq<CatalogEntry>, requested: string)
    ensures match SearchCatalog(entries, requested)
            case Some(e) => exists i :: 0 <= i < |entries| && entries[i] == e && Wanted(e, requested)
                              && forall j :: 0 <= j < i ==> !Wanted(entries[j], requested)
            case None => forall j :: 0 <= j < |entries| ==> !Wanted(entries[j], requested)
  {
    var t := NormalizeLookup(requested);
    var i := First(entries, (e: CatalogEntry) => Hit(e, t));
    FirstIsFirst(entries, (e: CatalogEntry) => Hit(e, t));
    forall j | 0 <= j < |entries|
      ensures Wanted(entries[j], requested) <==> t != "" && Hit(entries[j], t)
    {
      WantedIsHit(entries[j], requested);
    }
    if SearchCatalog(entries, requested).Some? {
      assert entries[i] == SearchCatalog(entries, requested).value;
    }
  }

  /** An entry with a slug answers to it. */
  lemma SlugHits(e: CatalogEntry)
    requires NormalizeSlug(e.slug) != ""
    ensures Hit(e, NormalizeSlug(e.slug)) && NormalizeLookup(NormalizeSlug(e.slug)) == NormalizeSlug(e.slug)
    ensures NormalizeSlug(NormalizeSlug(e.slug)) == NormalizeSlug(e.slug)
  {
    SlugResult(e.slug);
    SlugFixed(NormalizeSlug(e.slug));
    assert Tokens(ProfileOf(e))[0] == NormalizeSlug(e.slug);
  }

  /**
    Two entries with one slug: the slug lookup finds the last of them, the name lookup the
    first entry with that name.
   */
  lemma SharedSlug(entries: seq<CatalogEntry>, slug: string, i: nat, k: nat)
    requires i < k < |entries| && slug != ""
    requires NormalizeSlug(entries[i].slug) == slug && NormalizeSlug(entries[k].slug) == slug
    requires forall j :: k < j < |entries| ==> NormalizeSlug(entries[j].slug) != slug
    requires forall j :: 0 <= j < i ==> !Hit(entries[j], slug)
    ensures LookupSlug(entries, slug) == Some(entries[k])
    ensures SearchCatalog(entries, slug) == Some(entries[i])
  {
    SlugHits(entries[i]);
    LastUnique(entries, (e: CatalogEntry) => NormalizeSlug(e.slug) == slug, k);
    FirstUnique(entries, (e: CatalogEntry) => Hit(e, slug), i);
  }

  // ---------- Resolving a request ----------

  function FirstMatch(profiles: seq<Profile>, token: string): Option<Profile>
  {
    if profiles == [] then None
    else if Matches(profiles[0], token) then Some(profiles[0])
    else FirstMatch(profiles[1..], token)
  }

  /** Resolve: the organization's own profiles first, then the catalog. */
  function Resolve(profiles: seq<Profile>, entries: seq<CatalogEntry>, requested: string): Option<Profile>
  {
    var token := NormalizeLookup(requested);
    if token == "" then None
    else match FirstMatch(profiles, token)
      case Some(p) => Some(p)
      case None => match SearchCatalog(entries, requested) case Some(e) => Some(ProfileOf(e)) case None => None
  }

  /**
    Resolve passes a normalized token to Matches, which normalizes it again, while the catalog
    is searched with the token normalized once. The two ways agree on every profile exactly
    when the second normalization changes nothing.
   */
  lemma MatchesAgreeExactly(requested: string)
    ensures (forall p :: Matches(p, NormalizeLookup(requested)) <==> Matches(p, requested))
       <==> NormalizeLookup(NormalizeLookup(requested)) == NormalizeLookup(requested)
  {
    hide NormalizeLookup;
    var r := NormalizeLookup(requested);
    if forall p :: Matches(p, r) <==> Matches(p, requested) {
      var p := Profile(requested, "", "", []);
      EmptyIsNormal();
      assert Tokens(p) == [r, "", ""];
      assert Matches(p, r) <==> Matches(p, requested);
    }
  }

  lemma EmptyIsNormal()
    ensures NormalizeLookup("") == ""
  {
    NormalIsFixed("");
  }

  /** Of an at sign in front of a name only the name is left. */
  lemma AtDropped(name: string)
    requires name != "" && IsLower(name) && Trimmed(name, IsEdge) && !IsSpace(name[|name| - 1])
    ensures NormalizeLookup("@" + name) == name
  {
    hide IsLower, Lower, TrimLeft, TrimRight;
    var s := "@" + name;
    AtKept(name);
    LowerIsLower(s);
    TrimIsTrimmed(s, IsSpace);
    assert TrimAt(s) == name;
    TrimIsTrimmed(name, IsEdge);
  }

  lemma AtTwice(slug: string)
    requires IsSlug(slug) && slug != ""
    ensures NormalizeLookup("@" + slug) == slug && NormalizeLookup("@" + ("@" + slug)) == "@" + slug
  {
    SlugIsNormal(slug);
    AtDropped(slug);
    AtKept(slug);
    AtDropped("@" + slug);
  }

  lemma AtKept(name: string)
    requires name != "" && IsLower(name) && Trimmed(name, IsEdge) && !IsSpace(name[|name| - 1])
    ensures var s := "@" + name; IsLower(s) && Trimmed(s, IsEdge) && !IsSpace(s[|s| - 1])
  {
    forall c | c in "@" + name
      ensures LowerChar(c) == c
    {
      assert c == '@' || c in name;
    }
  }

  /** A catalog entry answers to its slug and its display name only. */
  lemma CatalogNames(e: CatalogEntry, t: string)
    requires t != ""
    ensures t in Tokens(ProfileOf(e)) <==> NormalizeSlug(e.slug) == t || NormalizeLookup(TrimSpace(e.displayName)) == t
  {
    var p := ProfileOf(e);
    SlugResult(e.slug);
    SlugFixed(p.slug);
    SlugFixed("");
    assert Tokens(p) == [p.slug, NormalizeLookup(p.displayName), ""];
  }

  /** With two at signs, a profile of the organization is found where the same catalog entry is not. */
  lemma DoubleAt(e: CatalogEntry)
    requires var slug := NormalizeSlug(e.slug); slug != "" && NormalizeLookup(TrimSpace(e.displayName)) != "@" + slug
    ensures var request := "@" + ("@" + NormalizeSlug(e.slug));
            Resolve([ProfileOf(e)], [], request) == Some(ProfileOf(e)) && Resolve([], [e], request) == None
  {
    var slug, p := NormalizeSlug(e.slug), ProfileOf(e);
    SlugResult(e.slug);
    AtTwice(slug);
    CatalogNames(e, slug);
    CatalogNames(e, "@" + slug);
    assert Matches(p, "@" + slug);
    assert FirstMatch([p], "@" + slug) == Some(p);
    assert !Hit(e, "@" + slug);
    assert SearchCatalog([e], "@" + ("@" + slug)) == None by {
      assert [e][1..] == [];
    }
  }
}
