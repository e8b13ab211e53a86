/** Cleaning of user queries for full-text search, and token-set similarity. */
module FtsSanitizer {
  import opened Text

  predicate WordChar(c: char) {
    'a' <= c <= 'z' || 'A' <= c <= 'Z' || '0' <= c <= '9' || c == '_'
  }

  function Lower(c: char): char {
    if 'A' <= c <= 'Z' then (c as int + 32) as char else c
  }

  /** Tokens of `text` when `current` has been collected in front of it. */
  function Scan(text: string, current: string): seq<string> {
    if text == "" then Flushed(current)
    else if WordChar(text[0]) then Scan(text[1..], current + [Lower(text[0])])
    else Flushed(current) + Scan(text[1..], "")
  }

  function Flushed(current: string): seq<string> { if current == "" then [] else [current] }

  function Tokens(text: string): seq<string> { Scan(text, "") }

  predicate StopWord(t: string) {
    t in {
      "a", "an", "the", "and", "or", "but", "in", "on", "at", "to",
      "for", "of", "with", "by", "from", "is", "it", "as", "be",
      "was", "are", "were", "been", "have", "has", "had", "do",
      "does", "did", "will", "would", "could", "should", "may",
      "might", "can", "this", "that", "these", "those", "i", "you",
      "he", "she", "we", "they", "me", "him", "her", "us", "them",
      "my", "your", "his", "its", "our", "their", "what", "which",
      "who", "when", "where", "how", "not", "no", "nor", "if",
      "then", "than", "so", "just", "about", "also", "very"
    }
  }

  predicate Operator(t: string) { t == "AND" || t == "OR" || t == "NOT" || t == "NEAR" }

  predicate Searchable(t: string) { |t| >= 2 && !Operator(t) && !StopWord(t) }

  function Clean(tokens: seq<string>): seq<string> {
    if tokens == [] then []
    else (if Searchable(tokens[0]) then [tokens[0]] else []) + Clean(tokens[1..])
  }

  function Sanitized(query: string): string { Join(Clean(Tokens(query)), " OR ") }

  method Tokenize(text: string) returns (tokens: seq<string>)
    ensures tokens == Tokens(text)
  {
    tokens := [];
    var current := "";
    assert text[0..] == text && [] + Tokens(text) == Tokens(text);
    hide WordChar, Lower;
    for i := 0 to |text|
      invariant tokens + Scan(text[i..], current) == Tokens(text)
    {
      var c, rest := text[i], text[i + 1..];
      assert text[i..][0] == c && text[i..][1..] == rest;
      if WordChar(c) {
        current := current + [Lower(c)];
      } else {
        Glue(tokens, Scan(text[i..], current), Flushed(current), Scan(rest, ""));
        if current != "" {
          tokens := tokens + [current];
          current := "";
        } else {
          assert tokens + [] == tokens;
        }
      }
    }
    assert text[|text|..] == "";
    if current != "" { tokens := tokens + [current]; } else { assert tokens + [] == tokens; }
  }

  method Sanitize(query: string) returns (result: string)
    ensures result == Sanitized(query) == Join(Clean(Tokens(query)), " OR ")
  {
    var tokens := Tokenize(query);
    var clean := DropUnsearchable(tokens);
    result := JoinWithOr(clean);
  }

  method DropUnsearchable(tokens: seq<string>) returns (clean: seq<string>)
    ensures clean == Clean(tokens)
  {
    hide Searchable;
    clean := [];
    assert tokens[0..] == tokens && [] + Clean(tokens) == Clean(tokens);
    for i := 0 to |tokens|
      invariant clean + Clean(tokens[i..]) == Clean(tokens)
    {
      assert tokens[i..][1..] == tokens[i + 1..] && tokens[i..][0] == tokens[i];
      Glue(clean, Clean(tokens[i..]), if Searchable(tokens[i]) then [tokens[i]] else [], Clean(tokens[i + 1..]));
      if Searchable(tokens[i]) { clean := clean + [tokens[i]]; } else { assert clean + [] == clean; }
    }
    assert tokens[|tokens|..] == [] && clean + [] == clean;
  }

  method JoinWithOr(clean: seq<string>) returns (result: string)
    ensures result == Join(clean, " OR ")
  {
    var joiner := " OR ";
    result := "";
    for i := 0 to |clean|
      invariant result == Join(clean[..i], joiner)
    {
      assert clean[..i + 1] == clean[..i] + [clean[i]];
      if i > 0 {
        JoinSnoc(clean[..i], clean[i], joiner);
        result := result + joiner;
      } else {
        assert clean[..1] == [clean[0]];
      }
      result := result + clean[i];
    }
    assert clean[..|clean|] == clean;
  }

  /** Digits, letters and the underscore; capitals are the ones changed. */
  lemma CharsAre(c: char)
    ensures WordChar(c) <==> 48 <= c as int <= 57 || 65 <= c as int <= 90 || c as int == 95 || 97 <= c as int <= 122
    ensures Lower(c) as int == if 65 <= c as int <= 90 then c as int + 32 else c as int
  {
  }

  // --- Tokens ----------------------------------------------------------------------

  /** What tokenizing yields: lower-case word characters, at least one. */
  ghost predicate Token(t: string) {
    t != "" && forall c :: c in t ==> WordChar(c) && Lower(c) == c
  }

  /** A token is searched for unless it is short or a stop word: as tokens are lower case, no
      token is ever taken for an operator. */
  lemma SearchableIs(t: string)
    requires Token(t)
    ensures Searchable(t) <==> |t| >= 2 && !StopWord(t)
  {
    OperatorsAreUpper(t);
  }

  lemma OperatorsAreUpper(t: string)
    ensures Operator(t) ==> t != "" && t[0] in t && Lower(t[0]) != t[0]
  {
  }

  /** The word characters of a text, in lower case. */
  function WordsOnly(text: string): string {
    if text == "" then ""
    else (if WordChar(text[0]) then [Lower(text[0])] else "") + WordsOnly(text[1..])
  }

  /** The tokens together hold every word character of the text, in order. */
  lemma {:induction false} TokensHold(text: string, current: string)
    ensures Concat(Scan(text, current)) == current + WordsOnly(text)
  {
    assert Concat([]) == "" && current + "" == current && Concat(Flushed(current)) == current by {
      if current != "" { assert Flushed(current)[1..] == [] && current + Concat([]) == current; }
    }
    if text != "" {
      hide WordChar, Lower;
      var more := WordsOnly(text[1..]);
      if WordChar(text[0]) {
        TokensHold(text[1..], current + [Lower(text[0])]);
        assert current + [Lower(text[0])] + more == current + ([Lower(text[0])] + more);
      } else {
        TokensHold(text[1..], "");
        ConcatAppend(Flushed(current), Scan(text[1..], ""));
        assert "" + more == more;
      }
    }
  }

  lemma {:induction false} ScanTokens(text: string, current: string)
    requires current == "" || Token(current)
    ensures forall t :: t in Scan(text, current) ==> Token(t)
    decreases |text|
  {
    if text != "" {
      if WordChar(text[0]) {
        assert WordChar(Lower(text[0])) && Lower(Lower(text[0])) == Lower(text[0]);
        ScanTokens(text[1..], current + [Lower(text[0])]);
      } else {
        ScanTokens(text[1..], "");
      }
    }
  }

  lemma {:induction false} ScanWord(word: string, rest: string, current: string)
    requires forall c :: c in word ==> WordChar(c) && Lower(c) == c
    ensures Scan(word + rest, current) == Scan(rest, current + word)
    decreases |word|
  {
    if word == "" {
      assert word + rest == rest && current + word == current;
    } else {
      var c, more := word[0], word[1..];
      assert c in word;
      assert (word + rest)[0] == c && (word + rest)[1..] == more + rest;
      assert Scan(word + rest, current) == Scan(more + rest, current + [c]);
      hide WordChar, Lower, Scan;
      ScanWord(more, rest, current + [c]);
      assert (current + [c]) + more == current + word;
    }
  }

  lemma ScanGap(gap: char, rest: string, current: string)
    requires !WordChar(gap)
    ensures Scan([gap] + rest, current) == Flushed(current) + Scan(rest, "")
  {
    assert ([gap] + rest)[1..] == rest;
  }

  /** A token at the front of a text, before a character that is part of none. */
  lemma TokensFirst(t: string, gap: char, rest: string)
    requires Token(t) && !WordChar(gap)
    ensures Tokens(t + ([gap] + rest)) == [t] + Tokens(rest)
  {
    ScanWord(t, [gap] + rest, "");
    assert "" + t == t;
    ScanGap(gap, rest, t);
  }

  lemma TokensOne(t: string)
    requires Token(t)
    ensures Tokens(t) == [t]
  {
    ScanWord(t, "", "");
    assert t + "" == t && "" + t == t;
  }

  /** Tokenizing undoes joining by a space, for every list of tokens. */
  lemma {:induction false} JoinRoundTrip(tokens: seq<string>)
    requires forall t :: t in tokens ==> Token(t)
    ensures Tokens(Join(tokens, " ")) == tokens
  {
    if |tokens| == 1 {
      TokensOne(tokens[0]);
    } else if tokens != [] {
      JoinRoundTrip(tokens[1..]);
      TokensFirst(tokens[0], ' ', Join(tokens[1..], " "));
      assert Join(tokens, " ") == tokens[0] + ([' '] + Join(tokens[1..], " "));
      assert tokens == [tokens[0]] + tokens[1..];
    }
  }

  /** Every text has the tokens of its own tokens joined by spaces. */
  lemma TokenizeStable(text: string)
    ensures Tokens(Join(Tokens(text), " ")) == Tokens(text)
  {
    ScanTokens(text, "");
    JoinRoundTrip(Tokens(text));
  }

  // --- Sanitizing ------------------------------------------------------------------

  /** The joiner re-tokenizes to a word of its own. */
  function Woven(clean: seq<string>): seq<string> {
    if |clean| <= 1 then clean else [clean[0], "or"] + Woven(clean[1..])
  }

  lemma OrStops()
    ensures !Searchable("or")
  {
  }

  lemma ScanOr(rest: string)
    ensures Scan("OR " + rest, "") == ["or"] + Scan(rest, "")
  {
    var s := "OR " + rest;
    assert s[0] == 'O' && s[1..] == "R " + rest;
    assert (s[1..])[0] == 'R' && s[1..][1..] == [' '] + rest;
    assert "" + ['o'] == "o" && "o" + ['r'] == "or";
    ScanGap(' ', rest, "or");
  }

  lemma {:induction false} TokensOfJoined(clean: seq<string>)
    requires forall t :: t in clean ==> Token(t)
    ensures Tokens(Join(clean, " OR ")) == Woven(clean)
  {
    if |clean| == 1 {
      TokensOne(clean[0]);
    } else if clean != [] {
      var t, rest := clean[0], Join(clean[1..], " OR ");
      TokensOfJoined(clean[1..]);
      TokensFirst(t, ' ', "OR " + rest);
      ScanOr(rest);
      assert Join(clean, " OR ") == t + ([' '] + ("OR " + rest)) by {
        assert " OR " == [' '] + "OR ";
      }
      assert [t] + (["or"] + Woven(clean[1..])) == [t, "or"] + Woven(clean[1..]);
    }
  }

  lemma {:induction false} CleanMembers(tokens: seq<string>)
    ensures forall t :: t in Clean(tokens) <==> t in tokens && Searchable(t)
  {
    if tokens != [] {
      hide Searchable;
      CleanMembers(tokens[1..]);
      assert tokens == [tokens[0]] + tokens[1..];
    }
  }

  lemma {:induction false} CleanWoven(clean: seq<string>)
    requires forall t :: t in clean ==> Searchable(t)
    ensures Clean(Woven(clean)) == clean
  {
    OrStops();
    hide Searchable, Clean;
    CleanEnds(clean);
    if |clean| > 1 {
      CleanWoven(clean[1..]);
      CleanWord(clean[0], "or", Woven(clean[1..]));
      assert clean == [clean[0]] + clean[1..];
    }
  }

  lemma CleanEnds(clean: seq<string>)
    requires |clean| <= 1 ==> forall t :: t in clean ==> Searchable(t)
    ensures |clean| <= 1 ==> Clean(clean) == clean
  {
    if |clean| == 1 { assert Clean(clean[1..]) == [] && clean[0] in clean; }
  }

  lemma CleanWord(t: string, stop: string, more: seq<string>)
    requires Searchable(t) && !Searchable(stop)
    ensures Clean([t, stop] + more) == [t] + Clean(more)
  {
    hide Searchable;
    var all := [t, stop] + more;
    assert all[1..] == [stop] + more && all[1..][1..] == more;
  }

  /** A sanitized query is the searchable tokens of the query, in order: these and only these
      come back from it, each a plain lower-case word. */
  lemma SanitizedIs(query: string)
    ensures Clean(Tokens(Sanitized(query))) == Clean(Tokens(query))
    ensures forall t :: t in Clean(Tokens(query)) <==> t in Tokens(query) && Searchable(t)
    ensures forall t :: t in Clean(Tokens(query)) ==> Token(t)
  {
    var clean := Clean(Tokens(query));
    ScanTokens(query, "");
    CleanMembers(Tokens(query));
    hide Searchable, StopWord, Scan, Token;
    TokensOfJoined(clean);
    CleanWoven(clean);
  }

  /** Sanitizing twice is sanitizing once. */
  lemma SanitizeIdempotent(query: string)
    ensures Sanitized(Sanitized(query)) == Sanitized(query)
  {
    SanitizedIs(query);
  }

  // --- Similarity ------------------------------------------------------------------

  function SetOf(tokens: seq<string>): set<string> { set t | t in tokens }

  /** Shared tokens among all tokens, of the two sets. */
  function Jaccard(a: seq<string>, b: seq<string>): real {
    if a == [] && b == [] then 1.0
    else
      UnionNotEmpty(a, b);
      |SetOf(a) * SetOf(b)| as real / |SetOf(a) + SetOf(b)| as real
  }

  method JaccardSimilarity(a: seq<string>, b: seq<string>) returns (similarity: real)
    ensures similarity == Jaccard(a, b)
  {
    if a == [] && b == [] { return 1.0; }
    UnionNotEmpty(a, b);
    if a == [] || b == [] {
      assert SetOf(a) * SetOf(b) == {};
      return 0.0;
    }
    var setA, setB := SetOf(a), SetOf(b);
    var shared := CountShared(setA, setB);
    var all := |setA| + |setB| - shared;
    similarity := shared as real / all as real;
  }

  method CountShared(setA: set<string>, setB: set<string>) returns (shared: nat)
    ensures shared == |setA * setB| && |setA| + |setB| - shared == |setA + setB|
  {
    var left := setA;
    shared := 0;
    while left != {}
      invariant left <= setA && shared == |(setA - left) * setB|
      decreases |left|
    {
      var t :| t in left;
      OneMore(setA, setB, left, t);
      if t in setB { shared := shared + 1; }
      left := left - {t};
    }
    assert (setA - {}) * setB == setA * setB;
  }

  lemma OneMore(setA: set<string>, setB: set<string>, left: set<string>, t: string)
    requires t in left && left <= setA
    ensures |(setA - (left - {t})) * setB| == |(setA - left) * setB| + if t in setB then 1 else 0
  {
    var seen := (setA - left) * setB;
    if t in setB {
      assert (setA - (left - {t})) * setB == seen + {t};
    } else {
      assert (setA - (left - {t})) * setB == seen;
    }
  }

  lemma UnionNotEmpty(a: seq<string>, b: seq<string>)
    requires a != [] || b != []
    ensures |SetOf(a) + SetOf(b)| > 0
  {
    var t := if a != [] then a[0] else b[0];
    assert t in SetOf(a) + SetOf(b);
  }

  lemma SameSize<T>(small: set<T>, large: set<T>)
    requires small <= large
    ensures |small| <= |large| && (|small| == |large| <==> small == large)
  {
    assert large == small + (large - small);
    if |small| == |large| { assert |large - small| == 0; }
  }

  lemma Ratio(n: nat, d: nat)
    requires 0 < d && n <= d
    ensures 0.0 <= n as real / d as real <= 1.0
    ensures n as real / d as real == 1.0 <==> n == d
    ensures n as real / d as real == 0.0 <==> n == 0
  {
    Quotient(n as real, d as real);
  }

  lemma Quotient(x: real, y: real)
    requires 0.0 <= x <= y && 0.0 < y
    ensures 0.0 <= x / y <= 1.0 && (x / y == 1.0 <==> x == y) && (x / y == 0.0 <==> x == 0.0)
  {
    var q := x / y;
    assert x == q * y && 0.0 * y == 0.0 && 1.0 * y == y;
    Scales(q, 0.0, y);
    Scales(0.0, q, y);
    Scales(q, 1.0, y);
    Scales(1.0, q, y);
  }

  lemma Scales(p: real, q: real, y: real)
    requires y > 0.0
    ensures p < q ==> p * y < q * y
  {
    assert (q - p) * y == q * y - p * y;
    if p < q { assert (q - p) * y > 0.0; }
  }

  /** Similarity is symmetric and between 0 and 1; it is 1 exactly for equal token sets and
      0 exactly for two lists, not both empty, that share no token. */
  lemma JaccardMeaning(a: seq<string>, b: seq<string>)
    ensures Jaccard(a, b) == Jaccard(b, a) && 0.0 <= Jaccard(a, b) <= 1.0
    ensures Jaccard(a, b) == 1.0 <==> SetOf(a) == SetOf(b)
    ensures Jaccard(a, b) == 0.0 <==> SetOf(a) !! SetOf(b) && (a != [] || b != [])
  {
    var sa, sb := SetOf(a), SetOf(b);
    assert sa * sb == sb * sa && sa + sb == sb + sa;
    if a != [] || b != [] {
      UnionNotEmpty(a, b);
      SameSize(sa * sb, sa + sb);
      Ratio(|sa * sb|, |sa + sb|);
      assert sa * sb == sa + sb <==> sa == sb by {
        if sa * sb == sa + sb {
          assert forall t :: t in sa <==> t in sb by {
            assert forall t :: t in sa + sb ==> t in sa * sb;
          }
        }
      }
    }
  }
}
