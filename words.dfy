/**
 * Whitespace tokenisation as done by `std::stringstream >> std::string`,
 * joining words with single spaces, and the `substr(0, find(":"))` /
 * `substr(find(":") + 1)` split of a `name:coefficient` token.
 */
module Words {
  import opened Results

  /** The characters `isspace` accepts in the "C" locale. */
  predicate IsSpace(c: char) {
    c == ' ' || c == '\t' || c == '\n' || c == '\r' || c == 11 as char || c == 12 as char
  }

  /** A word: what one `>>` extraction can return. */
  predicate IsWord(w: string) {
    w != [] && forall i :: 0 <= i < |w| ==> !IsSpace(w[i])
  }

  /** Length of the run of non-space characters at the start of `s`. */
  function WordLen(s: string): (n: nat)
    ensures n <= |s|
    ensures forall i :: 0 <= i < n ==> !IsSpace(s[i])
    ensures n < |s| ==> IsSpace(s[n])
  {
    if s == [] || IsSpace(s[0]) then 0 else 1 + WordLen(s[1..])
  }

  /** The words that repeated `ss >> tempbuf` extracts from `s`, in order. */
  function Tokens(s: string): (r: seq<string>)
    ensures forall t :: t in r ==> IsWord(t)
    decreases |s|
  {
    if s == [] then []
    else if IsSpace(s[0]) then Tokens(s[1..])
    else
      var n := WordLen(s);
      [s[..n]] + Tokens(s[n..])
  }

  /** Length of the run of white space at the start of `s`. */
  function LeadingSpaces(s: string): (k: nat)
    ensures k <= |s|
    ensures forall i :: 0 <= i < k ==> IsSpace(s[i])
    ensures k < |s| ==> !IsSpace(s[k])
  {
    if s == [] || !IsSpace(s[0]) then 0 else 1 + LeadingSpaces(s[1..])
  }

  /**
   * The first word `>>` extracts: `s` has no word exactly when it is all
   * white space, and otherwise the first word is the non-space run that
   * follows the leading white space.
   */
  lemma {:induction false} FirstToken(s: string)
    ensures Tokens(s) == [] <==> LeadingSpaces(s) == |s|
    ensures LeadingSpaces(s) < |s| ==>
      Tokens(s)[0] == s[LeadingSpaces(s)..][..WordLen(s[LeadingSpaces(s)..])]
    decreases |s|
  {
    if s != [] && IsSpace(s[0]) {
      FirstToken(s[1..]);
      assert s[LeadingSpaces(s)..] == s[1..][LeadingSpaces(s[1..])..];
    }
  }

  /** `ws` joined by single spaces. */
  function Joined(ws: seq<string>): string
    requires ws != []
  {
    if |ws| == 1 then ws[0] else ws[0] + " " + Joined(ws[1..])
  }

  /** Appending a word on the right, as `v = v + " " + w` does. */
  lemma {:induction false} JoinedSnoc(ws: seq<string>, w: string)
    requires ws != []
    ensures Joined(ws + [w]) == Joined(ws) + " " + w
  {
    if |ws| == 1 {
      assert ws + [w] == [ws[0], w];
    } else {
      assert (ws + [w])[1..] == ws[1..] + [w];
      JoinedSnoc(ws[1..], w);
    }
  }

  /** A lone word tokenises to itself. */
  lemma {:induction false} TokensOfWord(w: string)
    requires IsWord(w)
    ensures Tokens(w) == [w]
  {
    WordLenOfWord(w, []);
    assert w + [] == w;
    assert w[..|w|] == w && w[|w|..] == [];
    assert Tokens(w) == [w] + Tokens([]);
  }

  /** A word followed by a space and anything else. */
  lemma {:induction false} TokensAfterWord(w: string, rest: string)
    requires IsWord(w)
    ensures Tokens(w + " " + rest) == [w] + Tokens(rest)
  {
    var s := w + " " + rest;
    WordLenOfWord(w, " " + rest);
    assert s[..|w|] == w;
    assert s[|w|..] == " " + rest;
    assert (" " + rest)[1..] == rest;
  }

  lemma {:induction false} WordLenOfWord(w: string, rest: string)
    requires IsWord(w)
    requires rest == [] || IsSpace(rest[0])
    ensures WordLen(w + rest) == |w|
    decreases |w|
  {
    if |w| > 1 {
      assert (w + rest)[1..] == w[1..] + rest;
      WordLenOfWord(w[1..], rest);
    } else {
      assert (w + rest)[1..] == rest;
    }
  }

  /** Joining words and tokenising again gives the same words back. */
  lemma {:induction false} TokensOfJoined(ws: seq<string>)
    requires ws != []
    requires forall i :: 0 <= i < |ws| ==> IsWord(ws[i])
    ensures Tokens(Joined(ws)) == ws
  {
    if |ws| == 1 {
      TokensOfWord(ws[0]);
    } else {
      TokensAfterWord(ws[0], Joined(ws[1..]));
      TokensOfJoined(ws[1..]);
    }
  }

  /** Whatever follows, the first token of `w + " " + rest` is `w`. */
  lemma FirstTokenAfterWord(w: string, rest: string)
    requires IsWord(w)
    ensures Tokens(w + " " + rest) != [] && Tokens(w + " " + rest)[0] == w
  {
    TokensAfterWord(w, rest);
  }

  /** Position of the first ':' in `t`, as `t.find(":")`; None stands for `npos`. */
  function FindColon(t: string): (r: Option<nat>)
    ensures r.Some? ==> r.value < |t| && t[r.value] == ':'
    ensures r.Some? ==> forall i :: 0 <= i < r.value ==> t[i] != ':'
    ensures r.None? ==> forall i :: 0 <= i < |t| ==> t[i] != ':'
  {
    if t == [] then None
    else if t[0] == ':' then Some(0)
    else match FindColon(t[1..])
      case None => None
      case Some(p) => Some(p + 1)
  }

  /** `t.substr(0, t.find(":"))`: the name part, the whole token when there is no ':'. */
  function NamePart(t: string): (r: string)
    ensures forall i :: 0 <= i < |r| ==> r[i] != ':'
    ensures r <= t
    ensures (forall i :: 0 <= i < |t| ==> t[i] != ':') ==> r == t
  {
    match FindColon(t)
    case None => t
    case Some(p) => t[..p]
  }

  /**
   * `t.substr(t.find(":") + 1)`: the coefficient text. With no ':' the
   * position `npos + 1` wraps to 0, so the whole token is returned.
   */
  function CoeffText(t: string): (r: string)
    ensures (forall i :: 0 <= i < |t| ==> t[i] != ':') ==> r == t
    ensures (exists i :: 0 <= i < |t| && t[i] == ':') ==> t == NamePart(t) + ":" + r
  {
    match FindColon(t)
    case None => t
    case Some(p) =>
      assert t == t[..p] + ":" + t[p + 1..];
      t[p + 1..]
  }

  /** A LIBXC term that asks for Hartree-Fock exchange: `HF` or `HF:coeff`. */
  predicate IsHFTerm(t: string) {
    NamePart(t) == "HF"
  }
}
