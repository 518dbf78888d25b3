/** World slugs: deriving one from a title, finding a free one, and creating worlds with them. */
module Slug {
  import opened Wrappers
  import opened EventLog
  import opened Text

  function TrimDashes(s: string): string {
    TrimRight(TrimLeft(s, c => c == '-'), c => c == '-')
  }

  // ----- What a slug is: the words of a text, with one dash between -----

  predicate Kept(c: char) {
    'a' <= c <= 'z' || '0' <= c <= '9'
  }

  predicate AllKept(s: string) {
    forall i :: 0 <= i < |s| ==> Kept(s[i])
  }

  predicate IsWord(s: string) {
    s != "" && AllKept(s)
  }

  predicate AreWords(words: seq<string>) {
    forall i :: 0 <= i < |words| ==> IsWord(words[i])
  }

  // One more character on the last word.
  function Longer(words: seq<string>, c: char): (r: seq<string>)
    requires words != [] && AreWords(words) && Kept(c)
    ensures AreWords(r) && |r| == |words|
  {
    var last := words[|words| - 1];
    assert IsWord(last);
    words[..|words| - 1] + [last + [c]]
  }

  // The maximal runs of kept characters, in order.
  function Words(s: string): (r: seq<string>)
    ensures AreWords(r) && (s != "" && Kept(s[|s| - 1]) ==> r != [])
  {
    if s == "" then []
    else
      var c, before, words := s[|s| - 1], s[..|s| - 1], Words(s[..|s| - 1]);
      if !Kept(c) then words
      else if before != "" && Kept(before[|before| - 1]) then Longer(words, c)
      else words + [[c]]
  }

  function Dashed(words: seq<string>): string {
    if words == [] then ""
    else if |words| == 1 then words[0]
    else Dashed(words[..|words| - 1]) + "-" + words[|words| - 1]
  }

  function Normal(tables: Unicode, slug: string, fallback: string): string {
    ToLower(tables, TrimSpace(tables, if TrimSpace(tables, slug) == "" then fallback else slug))
  }

  function SlugOf(tables: Unicode, slug: string, fallback: string): string {
    Dashed(Words(Normal(tables, slug, fallback)))
  }

  // ----- The loop -----

  // What the builder holds after some text: the words so far, and a dash once one has ended.
  predicate Pending(s: string) {
    Words(s) != [] && s != "" && !Kept(s[|s| - 1])
  }

  function Built(s: string): string {
    Dashed(Words(s)) + if Pending(s) then "-" else ""
  }

  lemma DashedGrows(words: seq<string>, word: string, c: char)
    ensures Dashed(words + [word]) == if words == [] then word else Dashed(words) + "-" + word
    ensures Dashed(words + [word + [c]]) == Dashed(words + [word]) + [c]
  {
    assert (words + [word])[..|words|] == words;
    assert (words + [word + [c]])[..|words|] == words;
  }

  // How the words grow with one more character.
  lemma WordsStep(s: string, c: char)
    ensures Words(s + [c]) == if !Kept(c) then Words(s)
                              else if s != "" && Kept(s[|s| - 1]) then Longer(Words(s), c)
                              else Words(s) + [[c]]
    ensures (s + [c])[|s + [c]| - 1] == c
  {
    assert (s + [c])[..|s|] == s;
  }

  lemma LongerDashed(words: seq<string>, c: char)
    requires words != [] && AreWords(words) && Kept(c)
    ensures Dashed(Longer(words, c)) == Dashed(words) + [c]
  {
    var front, last := words[..|words| - 1], words[|words| - 1];
    DashedGrows(front, last, c);
    assert words == front + [last];
  }

  lemma KeptStep(s: string, c: char)
    requires Kept(c)
    ensures Built(s + [c]) == Built(s) + [c] && !Pending(s + [c])
  {
    var words := Words(s);
    WordsStep(s, c);
    if s != "" && Kept(s[|s| - 1]) {
      LongerDashed(words, c);
      assert Dashed(words) + "" == Dashed(words);
    } else {
      DashedGrows(words, [c], c);
      if words == [] {
        assert Built(s) == "";
      } else {
        assert s != "";
        assert Built(s) == Dashed(words) + "-";
      }
    }
    assert Dashed(Words(s + [c])) + "" == Dashed(Words(s + [c]));
  }

  lemma GapStep(s: string, c: char)
    requires !Kept(c)
    ensures Built(s + [c]) == if !Pending(s) && Built(s) != "" then Built(s) + "-" else Built(s)
    ensures Pending(s + [c]) <==> Built(s) != ""
  {
    WordsStep(s, c);
    DashedIsEmpty(Words(s));
    assert Dashed(Words(s)) + "" == Dashed(Words(s));
  }

  lemma BuiltStep(s: string, c: char)
    ensures Built(s + [c]) == if Kept(c) then Built(s) + [c]
                              else if !Pending(s) && Built(s) != "" then Built(s) + "-"
                              else Built(s)
    ensures Pending(s + [c]) <==> !Kept(c) && Built(s) != ""
  {
    if Kept(c) {
      KeptStep(s, c);
    } else {
      GapStep(s, c);
    }
  }

  lemma DashedIsEmpty(words: seq<string>)
    requires AreWords(words)
    ensures Dashed(words) == "" <==> words == []
  {
    if words != [] {
      assert IsWord(words[|words| - 1]);
    }
  }

  lemma OneMoreBuilt(text: string, i: nat)
    requires i < |text|
    ensures Built(text[..i + 1]) == if Kept(text[i]) then Built(text[..i]) + [text[i]]
                                    else if !Pending(text[..i]) && Built(text[..i]) != "" then Built(text[..i]) + "-"
                                    else Built(text[..i])
    ensures Pending(text[..i + 1]) <==> !Kept(text[i]) && Built(text[..i]) != ""
  {
    assert text[..i + 1] == text[..i] + [text[i]];
    BuiltStep(text[..i], text[i]);
  }

  method Build(text: string) returns (builder: string)
    ensures builder == Built(text)
  {
    builder := "";
    var previousDash := false;
    for i := 0 to |text|
      invariant builder == Built(text[..i])
      invariant previousDash == Pending(text[..i])
    {
      var c := text[i];
      OneMoreBuilt(text, i);
      if Kept(c) {
        builder := builder + [c];
        previousDash := false;
      } else if !previousDash && |builder| > 0 {
        builder := builder + "-";
        previousDash := true;
      }
    }
    assert text[..|text|] == text;
  }

  /** One pass over the text gives its words with one dash between each two. */
  method Slugify(tables: Unicode, slug: string, fallback: string) returns (r: string)
    ensures r == SlugOf(tables, slug, fallback)
  {
    var source := slug;
    if TrimSpace(tables, source) == "" {
      source := fallback;
    }
    var text := ToLower(tables, TrimSpace(tables, source));
    var builder := Build(text);
    TrimBuilt(text);
    r := TrimDashes(builder);
  }

  // ----- Shape -----

  // Letters and digits with single dashes between them.
  predicate IsSlug(s: string) {
    && (forall i :: 0 <= i < |s| ==> 'a' <= s[i] <= 'z' || '0' <= s[i] <= '9' || s[i] == '-')
    && (forall i :: 0 < i < |s| ==> s[i - 1] != '-' || s[i] != '-')
    && (s != "" ==> s[0] != '-' && s[|s| - 1] != '-')
  }

  lemma {:induction false} DashedIsSlug(words: seq<string>)
    requires AreWords(words)
    ensures IsSlug(Dashed(words)) && (words != [] ==> Dashed(words) != "")
    decreases |words|
  {
    if |words| == 1 {
      assert IsWord(words[0]);
    }
    if |words| > 1 {
      assert IsWord(words[|words| - 1]);
      DashedIsSlug(words[..|words| - 1]);
      JoinIsSlug(Dashed(words[..|words| - 1]), words[|words| - 1]);
    }
  }

  lemma JoinIsSlug(s: string, word: string)
    requires IsSlug(s) && s != "" && IsWord(word)
    ensures IsSlug(s + "-" + word)
  {
    var r := s + "-" + word;
    forall i | 0 <= i < |r| ensures r[i] == if i < |s| then s[i] else if i == |s| then '-' else word[i - |s| - 1] {
    }
  }

  lemma TrimBuilt(s: string)
    ensures TrimDashes(Built(s)) == Dashed(Words(s))
  {
    var slug := Dashed(Words(s));
    DashedIsSlug(Words(s));
    DashedIsEmpty(Words(s));
    if Pending(s) {
      assert Built(s)[0] != '-';
      assert Built(s)[..|Built(s)| - 1] == slug;
    }
  }

  /** What slugify returns has only a-z, 0-9 and single inner dashes. */
  lemma SlugIsSlug(tables: Unicode, slug: string, fallback: string)
    ensures IsSlug(SlugOf(tables, slug, fallback))
  {
    DashedIsSlug(Words(Normal(tables, slug, fallback)));
  }

  // The kept characters of a text, in order.
  function Letters(s: string): string {
    if s == "" then "" else Letters(s[..|s| - 1]) + if Kept(s[|s| - 1]) then [s[|s| - 1]] else ""
  }

  lemma LettersStep(s: string, c: char)
    ensures Letters(s + [c]) == if Kept(c) then Letters(s) + [c] else Letters(s)
  {
    assert (s + [c])[..|s|] == s;
  }

  lemma {:induction false} BuiltKeepsLetters(s: string)
    ensures Letters(Built(s)) == Letters(s)
    decreases |s|
  {
    if s != "" {
      var before, c := s[..|s| - 1], s[|s| - 1];
      BuiltKeepsLetters(before);
      assert s == before + [c];
      BuiltStep(before, c);
      LettersStep(before, c);
      LettersStep(Built(before), c);
      LettersStep(Built(before), '-');
      assert Built(before) + "-" == Built(before) + ['-'];
    }
  }

  /** Every letter and digit of the text is in the slug, in order, and no other is. */
  lemma SlugKeepsLetters(tables: Unicode, slug: string, fallback: string)
    ensures Letters(SlugOf(tables, slug, fallback)) == Letters(Normal(tables, slug, fallback))
  {
    var text := Normal(tables, slug, fallback);
    BuiltKeepsLetters(text);
    LettersStep(Dashed(Words(text)), '-');
    assert Dashed(Words(text)) + "-" == Dashed(Words(text)) + ['-'];
    assert Dashed(Words(text)) + "" == Dashed(Words(text));
  }

  // A text that is a slug but perhaps for a dash at its end is rebuilt as it is.
  lemma RebuiltStep(before: string, c: char)
    requires Built(before) == before && (Kept(c) || c == '-')
    requires c == '-' ==> before != "" && Kept(before[|before| - 1])
    ensures Built(before + [c]) == before + [c]
  {
    BuiltStep(before, c);
  }

  lemma {:induction false} Rebuilt(s: string)
    requires forall i :: 0 <= i < |s| ==> Kept(s[i]) || s[i] == '-'
    requires forall i :: 0 < i < |s| ==> s[i - 1] != '-' || s[i] != '-'
    requires s != "" ==> s[0] != '-'
    ensures Built(s) == s
    decreases |s|
  {
    if s != "" {
      var before, c := s[..|s| - 1], s[|s| - 1];
      Rebuilt(before);
      RebuiltStep(before, c);
      assert s == before + [c];
    }
  }

  lemma NormalOfSlug(tables: Unicode, s: string)
    requires IsSlug(s)
    ensures TrimSpace(tables, s) == s && ToLower(tables, s) == s
  {
  }

  /** A slug comes out as it went in: slugify is idempotent, and its fixed points are exactly
      the slugs. */
  lemma FixedExactlyWhenSlug(tables: Unicode, s: string)
    ensures SlugOf(tables, s, s) == s <==> IsSlug(s)
  {
    SlugIsSlug(tables, s, s);
    if IsSlug(s) {
      NormalOfSlug(tables, s);
      Rebuilt(s);
      assert !Pending(s);
    }
  }

  lemma SlugifyTwice(tables: Unicode, slug: string, fallback: string, other: string)
    ensures var once := SlugOf(tables, slug, fallback);
            SlugOf(tables, once, once) == once && (once != "" ==> SlugOf(tables, once, other) == once)
  {
    var once := SlugOf(tables, slug, fallback);
    SlugIsSlug(tables, slug, fallback);
    FixedExactlyWhenSlug(tables, once);
    NormalOfSlug(tables, once);
  }

  function Candidate(base: string, suffix: nat): string {
    base + "-" + Decimal(suffix)
  }

  lemma CandidatesDiffer(base: string, a: nat, b: nat)
    ensures Candidate(base, a) == Candidate(base, b) ==> a == b
  {
    assert Candidate(base, a)[|base| + 1..] == Decimal(a);
    assert Candidate(base, b)[|base| + 1..] == Decimal(b);
    DecimalReadsBack(a);
    DecimalReadsBack(b);
  }

  /** The fallback is used exactly when the slug asked for is blank. */
  lemma SlugSource(tables: Unicode, slug: string, fallback: string, other: string)
    ensures TrimSpace(tables, slug) != "" ==> SlugOf(tables, slug, fallback) == SlugOf(tables, slug, other)
    ensures TrimSpace(tables, slug) == "" ==> SlugOf(tables, slug, fallback) == SlugOf(tables, fallback, fallback)
  {
  }

  predicate IsAlphanumeric(c: char) {
    'a' <= c <= 'z' || 'A' <= c <= 'Z' || '0' <= c <= '9'
  }

  /** A word of ASCII letters and digits becomes itself in small letters. */
  lemma SlugOfWord(tables: Unicode, word: string, fallback: string)
    requires word != "" && forall i :: 0 <= i < |word| ==> IsAlphanumeric(word[i])
    ensures var r := SlugOf(tables, word, fallback);
            |r| == |word| && forall i :: 0 <= i < |word| ==>
              r[i] as int == (if 'A' <= word[i] <= 'Z' then word[i] as int + 32 else word[i] as int)
  {
    var lower := ToLower(tables, word);
    assert TrimSpace(tables, word) == word;
    assert Normal(tables, word, fallback) == lower;
    assert forall i :: 0 <= i < |lower| ==> Kept(lower[i]);
    Rebuilt(lower);
    assert !Pending(lower);
  }

  // ----- Searching for a free suffix -----

  predicate TakenBelow(base: string, taken: set<string>, suffix: nat) {
    forall k :: 2 <= k < suffix ==> Candidate(base, k) in taken
  }

  // As many different candidates are taken as were tried.
  lemma {:induction false} TriedAtMost(base: string, taken: set<string>, suffix: nat)
    requires 2 <= suffix && TakenBelow(base, taken, suffix)
    ensures suffix - 2 <= |taken|
    decreases suffix
  {
    if suffix > 2 {
      var last := Candidate(base, suffix - 1);
      forall k | 2 <= k < suffix - 1 ensures Candidate(base, k) in taken - {last} {
        CandidatesDiffer(base, k, suffix - 1);
      }
      TriedAtMost(base, taken - {last}, suffix - 1);
    }
  }

  /** The least suffix from 2 up that is free; it exists because only so many are taken. */
  function FreeSuffix(base: string, taken: set<string>, from: nat): (k: nat)
    requires 2 <= from && TakenBelow(base, taken, from)
    ensures from <= k <= |taken| + 2 && TakenBelow(base, taken, k) && Candidate(base, k) !in taken
    decreases |taken| + 2 - from
  {
    TriedAtMost(base, taken, from);
    if Candidate(base, from) in taken then
      TriedAtMost(base, taken, from + 1);
      FreeSuffix(base, taken, from + 1)
    else from
  }

  function NextFree(base: string, taken: set<string>): string {
    Candidate(base, FreeSuffix(base, taken, 2))
  }

  /** The loop has no bound of its own: it stops because each candidate differs from the last. */
  method NextFreeSlug(base: string, taken: set<string>) returns (r: string, ghost suffix: nat)
    ensures r == NextFree(base, taken)
    ensures r == Candidate(base, suffix) && r !in taken && 2 <= suffix && TakenBelow(base, taken, suffix)
    ensures suffix - 1 <= |taken| + 1
  {
    var n := 2;
    TriedAtMost(base, taken, 2);
    while true
      invariant 2 <= n && TakenBelow(base, taken, n)
      invariant FreeSuffix(base, taken, 2) == FreeSuffix(base, taken, n)
      invariant n <= |taken| + 2
      decreases |taken| + 2 - n
    {
      var candidate := Candidate(base, n);
      if candidate !in taken {
        return candidate, n;
      }
      TriedAtMost(base, taken, n + 1);
      n := n + 1;
    }
  }

  // ----- Creating worlds -----

  datatype Request = Request(id: Id, slug: string, title: string, systemId: string)

  datatype Reply = BadRequest | SlugIsTaken | Created(slug: string)

  function Taken(t: Tables): set<string> {
    set id | id in t.worlds :: t.worlds[id].slug
  }

  function Create(tables: Unicode, t: Tables, request: Request): (Reply, Tables) {
    var title := TrimSpace(tables, request.title);
    var chosen := TrimSpace(tables, request.slug) != "";
    var slug := SlugOf(tables, request.slug, title);
    if title == "" || slug == "" || request.systemId == "" then (BadRequest, t)
    else if slug in Taken(t) && chosen then (SlugIsTaken, t)
    else
      var free := if slug in Taken(t) then NextFree(slug, Taken(t)) else slug;
      match PutWorld(t, request.id, WorldRow(free, "", 0))
      case Fail => (SlugIsTaken, t)
      case Ok(next) => (Created(free), next)
  }

  method CreateWorld(tables: Unicode, store: Store, request: Request) returns (reply: Reply)
    modifies store
    ensures (reply, store.View()) == Create(tables, old(store.View()), request)
  {
    var title := TrimSpace(tables, request.title);
    var chosen := TrimSpace(tables, request.slug) != "";
    var slug := Slugify(tables, request.slug, title);
    if title == "" || slug == "" || request.systemId == "" {
      return BadRequest;
    }
    var taken := Taken(store.View());
    if slug in taken {
      if chosen {
        return SlugIsTaken;
      }
      ghost var suffix;
      slug, suffix := NextFreeSlug(slug, taken);
    }
    var op := Put(request.id, WorldRow(slug, "", 0));
    assert [op][1..] == [];
    var ok := store.Tx([op]);
    reply := if ok then Created(slug) else SlugIsTaken;
  }

  // ----- Slugs over every run of creations -----

  predicate SlugsInOrder(t: Tables) {
    && (forall a, b :: a in t.worlds && b in t.worlds && t.worlds[a].slug == t.worlds[b].slug ==> a == b)
    && (forall a :: a in t.worlds ==> t.worlds[a].slug != "" && IsSlug(t.worlds[a].slug))
  }

  lemma CandidateIsSlug(base: string, suffix: nat)
    requires IsSlug(base) && base != ""
    ensures IsSlug(Candidate(base, suffix)) && Candidate(base, suffix) != ""
  {
    assert IsWord(Decimal(suffix));
    JoinIsSlug(base, Decimal(suffix));
  }

  lemma FreeSlugIsStored(t: Tables, id: Id, slug: string)
    requires SlugsInOrder(t) && id !in t.worlds && slug !in Taken(t) && slug != "" && IsSlug(slug)
    ensures PutWorld(t, id, WorldRow(slug, "", 0)).Ok?
    ensures var next := PutWorld(t, id, WorldRow(slug, "", 0)).value;
            SlugsInOrder(next) && Taken(next) == Taken(t) + {slug}
  {
    var next := PutWorld(t, id, WorldRow(slug, "", 0)).value;
    assert next.worlds[id].slug == slug;
    assert forall other :: other in t.worlds ==> next.worlds[other] == t.worlds[other] && t.worlds[other].slug in Taken(t);
  }

  predicate Acceptable(tables: Unicode, request: Request) {
    var title := TrimSpace(tables, request.title);
    title != "" && SlugOf(tables, request.slug, title) != "" && request.systemId != ""
  }

  /** Creating a world under a new id: a derived slug always finds a place, a chosen one is
      refused exactly when it is taken, and the slugs stay distinct and well formed. */
  lemma CreateKeepsSlugs(tables: Unicode, t: Tables, request: Request)
    requires SlugsInOrder(t) && request.id !in t.worlds
    ensures var (reply, next) := Create(tables, t, request);
            var slug := SlugOf(tables, request.slug, TrimSpace(tables, request.title));
            && SlugsInOrder(next)
            && (reply.BadRequest? <==> !Acceptable(tables, request))
            && (reply.SlugIsTaken? <==>
                  Acceptable(tables, request) && TrimSpace(tables, request.slug) != "" && slug in Taken(t))
            && (reply.Created? ==> reply.slug !in Taken(t) && Taken(next) == Taken(t) + {reply.slug}
                                   && (slug !in Taken(t) ==> reply.slug == slug))
            && (!reply.Created? ==> next == t)
  {
    var slug := SlugOf(tables, request.slug, TrimSpace(tables, request.title));
    SlugIsSlug(tables, request.slug, TrimSpace(tables, request.title));
    if Acceptable(tables, request) && slug in Taken(t) {
      CandidateIsSlug(slug, FreeSuffix(slug, Taken(t), 2));
      FreeSlugIsStored(t, request.id, NextFree(slug, Taken(t)));
    } else if Acceptable(tables, request) {
      FreeSlugIsStored(t, request.id, slug);
    }
  }

  function CreateAll(tables: Unicode, t: Tables, requests: seq<Request>): Tables
    decreases |requests|
  {
    if requests == [] then t else CreateAll(tables, Create(tables, t, requests[0]).1, requests[1..])
  }

  predicate FreshIds(t: Tables, requests: seq<Request>) {
    && (forall i :: 0 <= i < |requests| ==> requests[i].id !in t.worlds)
    && (forall i, j :: 0 <= i < j < |requests| ==> requests[i].id != requests[j].id)
  }

  /** Slugs are distinct and well formed after every run of creations. */
  lemma {:induction false} SlugsStayDistinct(tables: Unicode, t: Tables, requests: seq<Request>)
    requires SlugsInOrder(t) && FreshIds(t, requests)
    ensures SlugsInOrder(CreateAll(tables, t, requests))
    decreases |requests|
  {
    if requests != [] {
      var next := Create(tables, t, requests[0]).1;
      CreateKeepsSlugs(tables, t, requests[0]);
      assert forall id :: id in next.worlds ==> id in t.worlds || id == requests[0].id;
      SlugsStayDistinct(tables, next, requests[1..]);
    }
  }
}
