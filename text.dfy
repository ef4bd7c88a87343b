/** String helpers shared by the server and browser code: trimming, suffixes, substrings, ASCII case. */
module Text {

  /** `s` with the leading characters that satisfy `ws` removed. */
  function TrimStart(s: string, ws: char -> bool): string {
    if s != [] && ws(s[0]) then TrimStart(s[1..], ws) else s
  }

  /** `s` with the trailing characters that satisfy `ws` removed. */
  function TrimEnd(s: string, ws: char -> bool): string {
    if s != [] && ws(s[|s| - 1]) then TrimEnd(s[..|s| - 1], ws) else s
  }

  /** Trimming the start removes a prefix made only of `ws` characters, and maximal: what is left does not start with one. */
  lemma {:induction false} TrimStartShape(s: string, ws: char -> bool)
    ensures var r := TrimStart(s, ws);
            && |r| <= |s| && r == s[|s| - |r|..]
            && (r == [] || !ws(r[0]))
            && (forall i :: 0 <= i < |s| - |r| ==> ws(s[i]))
  {
    if s != [] && ws(s[0]) {
      TrimStartShape(s[1..], ws);
    }
  }

  /** Trimming the end removes a suffix made only of `ws` characters, and maximal: what is left does not end with one. */
  lemma {:induction false} TrimEndShape(s: string, ws: char -> bool)
    ensures var r := TrimEnd(s, ws);
            && |r| <= |s| && r == s[..|r|]
            && (r == [] || !ws(r[|r| - 1]))
            && (forall i :: |r| <= i < |s| ==> ws(s[i]))
  {
    if s != [] && ws(s[|s| - 1]) {
      TrimEndShape(s[..|s| - 1], ws);
    }
  }

  /** White space (as told by `ws`) stripped from both ends. */
  function Trim(s: string, ws: char -> bool): string {
    TrimEnd(TrimStart(s, ws), ws)
  }

  /** Neither end of `s` is a character that trimming would strip. */
  predicate IsTrimmed(s: string, ws: char -> bool) {
    s == [] || (!ws(s[0]) && !ws(s[|s| - 1]))
  }

  /** Trimming yields a trimmed piece of the input, and leaves an already trimmed string alone. */
  lemma {:induction false} TrimCharacterized(s: string, ws: char -> bool)
    ensures IsTrimmed(Trim(s, ws), ws)
    ensures |Trim(s, ws)| <= |s|
    ensures forall c :: c in Trim(s, ws) ==> c in s
    ensures Trim(s, ws) == s <==> IsTrimmed(s, ws)
  {
    var t := TrimStart(s, ws);
    var r := TrimEnd(t, ws);
    TrimStartShape(s, ws);
    TrimEndShape(t, ws);
    if r != [] {
      assert r[0] == t[0];
    }
    forall c | c in r ensures c in s {
      var i :| 0 <= i < |r| && r[i] == c;
      assert t[i] == c;
      assert s[|s| - |t| + i] == c;
    }
    if IsTrimmed(s, ws) && s != [] {
      assert t == s;
      assert r == t;
    }
  }

  /** A string made only of `ws` characters trims to nothing. */
  lemma {:induction false} TrimBlank(s: string, ws: char -> bool)
    requires forall i :: 0 <= i < |s| ==> ws(s[i])
    ensures Trim(s, ws) == []
  {
    if s != [] {
      TrimBlank(s[1..], ws);
    }
  }

  /** Trimming twice is trimming once. */
  lemma TrimIdempotent(s: string, ws: char -> bool)
    ensures Trim(Trim(s, ws), ws) == Trim(s, ws)
  {
    TrimCharacterized(s, ws);
    TrimCharacterized(Trim(s, ws), ws);
  }

  /** `s` ends with `suffix`. */
  predicate HasSuffix(s: string, suffix: string) {
    |suffix| <= |s| && s[|s| - |suffix|..] == suffix
  }

  /** `needle` occurs in `hay` as a contiguous piece (JavaScript's `String.includes`). */
  predicate Contains(hay: string, needle: string)
    decreases |hay|
  {
    needle <= hay || (hay != [] && Contains(hay[1..], needle))
  }

  /** The empty string occurs in every string. */
  lemma ContainsEmpty(hay: string)
    ensures Contains(hay, "")
  {
  }

  /** Upper-case ASCII letters mapped to lower case; every other character unchanged. */
  function LowerChar(c: char): char {
    if 'A' <= c <= 'Z' then (c as int + 32) as char else c
  }

  /** `String.toLowerCase` restricted to ASCII letters. */
  function Lower(s: string): (r: string)
    ensures |r| == |s|
    ensures forall i :: 0 <= i < |s| ==> r[i] == LowerChar(s[i])
  {
    if s == [] then [] else [LowerChar(s[0])] + Lower(s[1..])
  }
}
