/** buildMatch: free text to a full-text query in which nothing the reader typed is an
    operator. */
module Search {

  // ---- whitespace tokens ---------------------------------------------------

  /** strings.Fields: the maximal runs of characters that are not space. */
  function Fields(space: char -> bool, s: string): seq<string> {
    if s == [] then []
    else
      var front, c := s[..|s| - 1], s[|s| - 1];
      var toks := Fields(space, front);
      if space(c) then toks else Grow(toks, Glued(space, front), c)
  }

  /** A token reaches up to here. */
  predicate Glued(space: char -> bool, s: string) {
    s != [] && !space(s[|s| - 1])
  }

  lemma FieldsSnoc(space: char -> bool, s: string, c: char)
    ensures Fields(space, s + [c]) == if space(c) then Fields(space, s) else Grow(Fields(space, s), Glued(space, s), c)
  {
    assert (s + [c])[..|s|] == s;
  }

  /** One more character, onto the last token or as a new one. */
  function Grow(toks: seq<string>, onto: bool, c: char): seq<string> {
    if onto && toks != [] then toks[..|toks| - 1] + [toks[|toks| - 1] + [c]] else toks + [[c]]
  }

  lemma GrowAfter(a: seq<string>, b: seq<string>, onto: bool, c: char)
    requires onto ==> b != []
    ensures Grow(a + b, onto, c) == a + Grow(b, onto, c)
  {
    if onto {
      assert (a + b)[..|a + b| - 1] == a + b[..|b| - 1];
    }
  }

  predicate NoSpace(space: char -> bool, s: string) {
    forall k | 0 <= k < |s| :: !space(s[k])
  }

  lemma {:induction false} FieldsOfWord(space: char -> bool, w: string)
    requires w != [] && NoSpace(space, w)
    ensures Fields(space, w) == [w]
  {
    if |w| > 1 {
      FieldsOfWord(space, w[..|w| - 1]);
      assert w[..|w| - 1] + [w[|w| - 1]] == w;
    } else {
      assert w == [w[0]];
    }
  }

  lemma {:induction false} FieldsNonempty(space: char -> bool, s: string)
    requires Glued(space, s)
    ensures Fields(space, s) != []
  {
  }

  /** A space separates: what stands before and after it is split on its own. With
      FieldsOfWord, this determines Fields. */
  lemma {:induction false} FieldsSplitAtSpace(space: char -> bool, a: string, c: char, b: string)
    requires space(c)
    ensures Fields(space, a + [c] + b) == Fields(space, a) + Fields(space, b)
  {
    if b == [] {
      assert a + [c] + b == a + [c];
      FieldsSnoc(space, a, c);
    } else {
      var b', x := b[..|b| - 1], b[|b| - 1];
      FieldsSplitAtSpace(space, a, c, b');
      var front := a + [c] + b';
      assert front + [x] == a + [c] + b && b' + [x] == b;
      assert Glued(space, front) == Glued(space, b');
      FieldsSnoc(space, front, x);
      FieldsSnoc(space, b', x);
      if !space(x) {
        if Glued(space, b') { FieldsNonempty(space, b'); }
        GrowAfter(Fields(space, a), Fields(space, b'), Glued(space, b'), x);
      }
    }
  }

  /** unicode.IsLetter or unicode.IsDigit for some rune. */
  predicate HasIndexable(word: char -> bool, s: string) {
    exists k :: 0 <= k < |s| && word(s[k])
  }

  function Indexable(word: char -> bool, toks: seq<string>): seq<string> {
    if toks == [] then []
    else Indexable(word, toks[..|toks| - 1]) + if HasIndexable(word, toks[|toks| - 1]) then [toks[|toks| - 1]] else []
  }

  /** The tokens kept are those that hold a letter or digit. */
  lemma {:induction false} IndexableIff(word: char -> bool, toks: seq<string>, t: string)
    ensures t in Indexable(word, toks) <==> t in toks && exists k | 0 <= k < |t| :: word(t[k])
  {
    if toks != [] {
      var last := toks[|toks| - 1];
      IndexableIff(word, toks[..|toks| - 1], t);
      assert t in toks <==> t in toks[..|toks| - 1] || t == last;
    }
  }

  // ---- writing the query ---------------------------------------------------

  /** strings.ReplaceAll(s, `"`, `""`). */
  function Doubled(s: string): string {
    if s == [] then [] else (if s[0] == '"' then ['"', '"'] else [s[0]]) + Doubled(s[1..])
  }

  function Quoted(s: string): string {
    ['"'] + Doubled(s) + ['"']
  }

  /** strings.Join(parts, " "). */
  function Spaced(parts: seq<string>): string {
    if parts == [] then []
    else if |parts| == 1 then parts[0]
    else parts[0] + [' '] + Spaced(parts[1..])
  }

  method BuildMatch(space: char -> bool, word: char -> bool, raw: string) returns (out: string)
    ensures var kept := Indexable(word, Fields(space, raw));
            if kept == [] then out == [] else Lex(out) == Query(kept, true)
  {
    var toks := Fields(space, raw);
    var quoted := [];
    ghost var kept := [];
    for k := 0 to |toks|
      invariant kept == Indexable(word, toks[..k])
      invariant |quoted| == |kept| && forall i | 0 <= i < |kept| :: quoted[i] == Quoted(kept[i])
    {
      assert toks[..k + 1][..k] == toks[..k];
      if HasIndexable(word, toks[k]) {
        quoted := quoted + [Quoted(toks[k])];
        kept := kept + [toks[k]];
      }
    }
    assert toks[..|toks|] == toks;
    if |quoted| == 0 {
      return "";
    }
    quoted := quoted[|quoted| - 1 := quoted[|quoted| - 1] + "*"];
    out := Spaced(quoted);
    LexReadsBack(kept, quoted);
  }

  // ---- reading it ----------------------------------------------------------

  datatype Lexed = Malformed | Query(phrases: seq<string>, prefix: bool)

  /** Reads quoted strings separated by spaces, in which "" stands for a quote, and at
      most a final * outside the quotes (section 3.1 of the SQLite FTS5 documentation).
      Any other character outside quotes is Malformed: there, it could be an operator. */
  function Lex(s: string): Lexed
    decreases |s|
  {
    if s == [] then Query([], false)
    else if s == "*" then Query([], true)
    else if s[0] == ' ' then Lex(s[1..])
    else if s[0] == '"' then
      match Body(s[1..])
      case None => Malformed
      case Some(text, rest) =>
        (match Lex(rest)
         case Malformed => Malformed
         case Query(more, star) => Query([text] + more, star))
    else Malformed
  }

  datatype Phrase = None | Some(text: string, rest: string)

  /** Inside quotes: up to the first quote that is not doubled. */
  function Body(s: string): (r: Phrase)
    ensures r.Some? ==> |r.rest| < |s|
    decreases |s|
  {
    if s == [] then None
    else if s[0] != '"' then
      (match Body(s[1..]) case None => None case Some(text, rest) => Some([s[0]] + text, rest))
    else if |s| > 1 && s[1] == '"' then
      (match Body(s[2..]) case None => None case Some(text, rest) => Some(['"'] + text, rest))
    else Some([], s[1..])
  }

  lemma {:induction false} BodyReadsBack(text: string, rest: string)
    requires rest == [] || rest[0] != '"'
    ensures Body(Doubled(text) + ['"'] + rest) == Some(text, rest)
  {
    var s := Doubled(text) + ['"'] + rest;
    if text == [] {
      assert s[1..] == rest;
    } else {
      BodyReadsBack(text[1..], rest);
      var tail := Doubled(text[1..]) + ['"'] + rest;
      assert [text[0]] + text[1..] == text;
      if text[0] == '"' {
        assert s[2..] == tail;
      } else {
        assert s[1..] == tail;
      }
    }
  }

  /** The quoted phrases, the last one starred, read back as the phrases in order. */
  lemma {:induction false} LexReadsBack(kept: seq<string>, quoted: seq<string>)
    requires |kept| == |quoted| > 0
    requires forall i | 0 <= i < |kept| - 1 :: quoted[i] == Quoted(kept[i])
    requires quoted[|kept| - 1] == Quoted(kept[|kept| - 1]) + "*"
    ensures Lex(Spaced(quoted)) == Query(kept, true)
  {
    var s := Spaced(quoted);
    if |kept| == 1 {
      BodyReadsBack(kept[0], "*");
      assert s[1..] == Doubled(kept[0]) + ['"'] + "*";
    } else {
      var more := Spaced(quoted[1..]);
      BodyReadsBack(kept[0], [' '] + more);
      assert s[1..] == Doubled(kept[0]) + ['"'] + ([' '] + more);
      LexReadsBack(kept[1..], quoted[1..]);
      assert ([' '] + more)[1..] == more;
      assert [kept[0]] + kept[1..] == kept;
    }
  }
}
