/**
 * The bookkeeping of `upf2qso`, the converter from a UPF pseudopotential
 * to the QSO species format: locating tags in the input, scrubbing the
 * PP_INFO text for XML, refusing potentials it cannot convert, and the
 * table that assigns each angular momentum its projector, the local
 * channel and the number of projector blocks written.
 */
module Upf2Qso {
  import opened Results
  import opened Words

  // ---------------------------------------------------------------- seek_tag

  /** End of the line that starts at `p`: the next '\n', or the end of the text. */
  function LineEnd(text: string, p: nat): (e: nat)
    requires p <= |text|
    ensures p <= e <= |text|
    ensures e < |text| ==> text[e] == '\n'
    ensures forall i :: p <= i < e ==> text[i] != '\n'
    decreases |text| - p
  {
    if p == |text| || text[p] == '\n' then p else LineEnd(text, p + 1)
  }

  /** `is >> s` on a line: its first word, or `s` unchanged when the line is blank. */
  function Extract(line: string, s: string): (r: string)
    ensures LeadingSpaces(line) == |line| ==> r == s
    ensures LeadingSpaces(line) < |line| ==> IsWord(r)
  {
    FirstToken(line);
    var toks := Tokens(line);
    if toks == [] then s else toks[0]
  }

  /**
   * On a line with a word, `is >> s` yields the run of non-space characters
   * that follows the leading white space, ending at white space or at the
   * end of the line.
   */
  lemma ExtractFirstWord(line: string, s: string)
    requires LeadingSpaces(line) < |line|
    ensures var k, r := LeadingSpaces(line), Extract(line, s);
      k + |r| <= |line| && r == line[k..k + |r|] && (k + |r| == |line| || IsSpace(line[k + |r|]))
  {
    FirstToken(line);
  }

  /**
   * The status and new input position of `seek_tag(tag)` started at `p`,
   * with `s` the word last extracted: lines are read one by one; reaching
   * the end of input returns 1 even when that last line matched; a line
   * whose first word is `tag` returns 0 with the input just past it.
   */
  function Seek(text: string, p: nat, s: string, tag: string): (r: (int, nat))
    requires p <= |text|
    ensures r.0 == 0 || r.0 == 1
    ensures p <= r.1 <= |text|
    ensures r.0 == 0 ==> p < r.1 && text[r.1 - 1] == '\n'
    ensures r.0 == 1 ==> r.1 == |text|
    decreases |text| - p
  {
    var e := LineEnd(text, p);
    var s' := Extract(text[p..e], s);
    if e == |text| then (1, |text|)
    else if s' == tag then (0, e + 1)
    else Seek(text, e + 1, s', tag)
  }

  /** A complete line whose first word is the tag is found, and input resumes after it. */
  lemma SeekFindsTagLine(line: string, rest: string, s: string, tag: string)
    requires forall i :: 0 <= i < |line| ==> line[i] != '\n'
    requires Tokens(line) != [] && Tokens(line)[0] == tag
    ensures Seek(line + "\n" + rest, 0, s, tag) == (0, |line| + 1)
  {
    var text := line + "\n" + rest;
    assert LineEnd(text, 0) == |line| by {
      LineEndAt(text, 0, |line|);
    }
    assert text[0..|line|] == line;
  }

  /** A complete line that does not match is skipped, its first word remembered. */
  lemma SeekSkipsLine(line: string, rest: string, s: string, tag: string)
    requires forall i :: 0 <= i < |line| ==> line[i] != '\n'
    requires Extract(line, s) != tag
    ensures Seek(line + "\n" + rest, 0, s, tag) == Seek(line + "\n" + rest, |line| + 1, Extract(line, s), tag)
  {
    var text := line + "\n" + rest;
    LineEndAt(text, 0, |line|);
    var e := LineEnd(text, 0);
    assert text[0..e] == line;
    SeekNextLine(text, 0, s, tag);
  }

  /**
   * A last line without a final newline never succeeds, even when its first
   * word is the tag: the end-of-input test comes after the match test.
   */
  lemma SeekFailsOnUnterminatedLastLine(line: string, s: string, tag: string)
    requires forall i :: 0 <= i < |line| ==> line[i] != '\n'
    ensures Seek(line, 0, s, tag) == (1, |line|)
  {
    LineEndAt(line, 0, |line|);
  }

  lemma {:induction false} LineEndAt(text: string, p: nat, e: nat)
    requires p <= e <= |text|
    requires forall i :: p <= i < e ==> text[i] != '\n'
    requires e == |text| || text[e] == '\n'
    ensures LineEnd(text, p) == e
    decreases e - p
  {
    if p < e {
      LineEndAt(text, p + 1, e);
    }
  }

  /** A line that does not match hands the search on to the next line. */
  lemma SeekNextLine(text: string, p: nat, s: string, tag: string)
    requires p <= |text| && LineEnd(text, p) < |text|
    requires Extract(text[p..LineEnd(text, p)], s) != tag
    ensures Seek(text, p, s, tag) == Seek(text, LineEnd(text, p) + 1, Extract(text[p..LineEnd(text, p)], s), tag)
  {
  }

  /** At the last line, or at a matching line, the search stops. */
  lemma SeekStops(text: string, p: nat, s: string, tag: string)
    requires p <= |text|
    requires LineEnd(text, p) == |text| || Extract(text[p..LineEnd(text, p)], s) == tag
    ensures Seek(text, p, s, tag) == if LineEnd(text, p) == |text| then (1, |text|) else (0, LineEnd(text, p) + 1)
  {
  }

  /** The standard input stream: its text, the read position and the end-of-file flag. */
  class Stdin {
    const text: string
    var pos: nat
    var eof: bool

    ghost predicate Valid()
      reads this
    {
      pos <= |text| && (eof ==> pos == |text|)
    }

    constructor(text: string)
      ensures this.text == text && pos == 0 && !eof && Valid()
    {
      this.text := text;
      pos := 0;
      eof := false;
    }

    /** `getline(cin, buf)`: the rest of the line; end-of-file is set when no '\n' ends it. */
    method GetLine() returns (buf: string)
      requires Valid()
      modifies this
      ensures Valid()
      ensures var e := LineEnd(text, old(pos));
              && buf == text[old(pos)..e]
              && pos == (if e < |text| then e + 1 else |text|)
              && eof == (old(eof) || e == |text|)
    {
      var e := pos;
      while e < |text| && text[e] != '\n'
        invariant pos <= e <= |text|
        invariant forall i :: pos <= i < e ==> text[i] != '\n'
      {
        e := e + 1;
      }
      LineEndAt(text, pos, e);
      buf := text[pos..e];
      if e < |text| {
        pos := e + 1;
      } else {
        pos := |text|;
        eof := true;
      }
    }

    /**
     * `seek_tag(tag)`: 0 when a line whose first word is `tag` was read,
     * 1 when the end of input came first (or was already reached).
     */
    method SeekTag(tag: string) returns (status: int)
      requires Valid()
      modifies this
      ensures Valid()
      ensures old(eof) ==> status == 1 && pos == |text|
      ensures !old(eof) ==> (status, pos) == Seek(text, old(pos), "", tag)
      ensures eof <==> status == 1
    {
      var done := false;
      var s := "";
      ghost var start := pos;
      while !done
        invariant Valid()
        invariant old(eof) ==> eof
        invariant !old(eof) && !done ==> !eof && Seek(text, pos, s, tag) == Seek(text, start, "", tag)
        invariant done ==> !old(eof) && !eof && Seek(text, start, "", tag) == (0, pos)
        decreases !done, |text| - pos
      {
        ghost var p, s0 := pos, s;
        var buf := GetLine();
        s := Extract(buf, s);
        done := s == tag;
        if eof {
          if !old(eof) {
            SeekStops(text, p, s0, tag);
          }
          return 1;
        }
        if done {
          SeekStops(text, p, s0, tag);
        } else {
          SeekNextLine(text, p, s0, tag);
        }
      }
      return 0;
    }
  }

  // ------------------------------------------------------- PP_INFO scrubbing

  predicate IsAngle(c: char) { c == '<' || c == '>' }

  /** The PP_INFO text with every '<' and '>' turned into a space. */
  function Scrubbed(s: string): (r: string)
    ensures |r| == |s|
    ensures forall i :: 0 <= i < |s| ==> !IsAngle(r[i])
    ensures forall i :: 0 <= i < |s| && !IsAngle(s[i]) ==> r[i] == s[i]
    ensures forall i :: 0 <= i < |s| && IsAngle(s[i]) ==> r[i] == ' '
  {
    if s == [] then []
    else Scrubbed(s[..|s| - 1]) + [if IsAngle(s[|s| - 1]) then ' ' else s[|s| - 1]]
  }

  /** Scrubbing twice is scrubbing once. */
  lemma ScrubIdempotent(s: string)
    ensures Scrubbed(Scrubbed(s)) == Scrubbed(s)
  {
  }

  /** `find_first_of("<>")`: the first '<' or '>', None for `npos`. */
  function FindFirstAngle(s: string): (r: Option<nat>)
    ensures r.Some? ==> r.value < |s| && IsAngle(s[r.value])
    ensures r.Some? ==> forall i :: 0 <= i < r.value ==> !IsAngle(s[i])
    ensures r.None? ==> forall i :: 0 <= i < |s| ==> !IsAngle(s[i])
  {
    if s == [] then None
    else if IsAngle(s[0]) then Some(0)
    else match FindFirstAngle(s[1..])
      case None => None
      case Some(p) => Some(p + 1)
  }

  /** Number of '<' and '>' characters in `s`. */
  function AngleCount(s: string): nat {
    if s == [] then 0 else AngleCount(s[..|s| - 1]) + (if IsAngle(s[|s| - 1]) then 1 else 0)
  }

  lemma {:induction false} AngleCountUpdate(s: string, p: nat, c: char)
    requires p < |s| && IsAngle(s[p]) && !IsAngle(c)
    ensures AngleCount(s[p := c]) == AngleCount(s) - 1
  {
    var n := |s| - 1;
    if p < n {
      assert s[p := c][..n] == s[..n][p := c];
      AngleCountUpdate(s[..n], p, c);
    } else {
      assert s[p := c][..n] == s[..n];
    }
  }

  /** The scrub loop: repeatedly blank the first remaining angle bracket, in place. */
  method ScrubPPInfo(info: array<char>)
    modifies info
    ensures info[..] == Scrubbed(old(info[..]))
  {
    var p := FindFirstAngle(info[..]);
    while p.Some?
      invariant p == FindFirstAngle(info[..])
      invariant forall i :: 0 <= i < info.Length ==>
                  info[i] == old(info[i]) || (IsAngle(old(info[i])) && info[i] == ' ')
      decreases AngleCount(info[..])
    {
      AngleCountUpdate(info[..], p.value, ' ');
      info[p.value] := ' ';
      p := FindFirstAngle(info[..]);
    }
    ghost var was := old(info[..]);
    assert forall i :: 0 <= i < info.Length ==> info[..][i] == Scrubbed(was)[i];
  }

  // ------------------------------------------------------- header validation

  /**
   * The NC and NLCC header lines: 0 when the first word of the first is
   * "NC" (norm-conserving) and that of the second is "F" (no core
   * correction), else 1. A blank line yields an empty flag.
   */
  function HeaderFlagsStatus(ncLine: string, nlccLine: string): (status: int)
    ensures status == 0 || status == 1
    ensures status == 0 <==> && Tokens(ncLine) != [] && Tokens(ncLine)[0] == "NC"
                             && Tokens(nlccLine) != [] && Tokens(nlccLine)[0] == "F"
  {
    var ncFlag := Extract(ncLine, "");
    var nlccFlag := Extract(nlccLine, "");
    if ncFlag != "NC" then 1
    else if nlccFlag != "F" then 1
    else 0
  }

  /** One `m n d` line of PP_DIJ. */
  datatype DijEntry = DijEntry(m: int, n: int, d: real)

  /**
   * The PP_DIJ check: the declared count must equal the number of
   * projectors and every entry must be diagonal; 1 on the first violation.
   */
  method CheckDij(nproj: nat, ndij: int, dij: seq<DijEntry>) returns (status: int)
    requires ndij == nproj ==> ndij <= |dij|
    ensures status == 0 || status == 1
    ensures status == 0 <==> ndij == nproj && forall i :: 0 <= i < ndij ==> dij[i].m == dij[i].n
  {
    if ndij != nproj {
      return 1;
    }
    for i := 0 to ndij
      invariant forall k :: 0 <= k < i ==> dij[k].m == dij[k].n
    {
      if dij[i].m != dij[i].n {
        return 1;
      }
    }
    return 0;
  }

  // ------------------------------------------ projector table, local channel

  /** The last projector with angular momentum `l`, -1 when there is none. */
  function LastWithL(projL: seq<int>, l: int): (r: int)
    ensures -1 <= r < |projL|
    ensures r >= 0 ==> projL[r] == l
    ensures forall k :: r < k < |projL| ==> projL[k] != l
  {
    if projL == [] then -1
    else if projL[|projL| - 1] == l then |projL| - 1
    else LastWithL(projL[..|projL| - 1], l)
  }

  /** `iproj[l]` for l = 0 .. lmax+1. */
  function IprojTable(lmax: int, projL: seq<int>): (t: seq<int>)
    requires lmax >= -1
    ensures |t| == lmax + 2
    ensures forall l :: 0 <= l < |t| ==> t[l] == LastWithL(projL, l)
  {
    seq(lmax + 2, l => LastWithL(projL, l))
  }

  /** The two loops that build `iproj`: all -1, then each projector's index at its l. */
  method BuildIproj(lmax: int, projL: seq<int>) returns (iproj: seq<int>)
    requires lmax >= -1
    requires forall j :: 0 <= j < |projL| ==> 0 <= projL[j] <= lmax
    ensures iproj == IprojTable(lmax, projL)
  {
    iproj := [];
    for l := 0 to lmax + 2
      invariant |iproj| == l && forall k :: 0 <= k < l ==> iproj[k] == -1
    {
      iproj := iproj + [-1];
    }
    for j := 0 to |projL|
      invariant |iproj| == lmax + 2
      invariant forall l :: 0 <= l < lmax + 2 ==> iproj[l] == LastWithL(projL[..j], l)
    {
      assert projL[..j + 1][..j] == projL[..j];
      iproj := iproj[projL[j] := j];
    }
    assert projL[..|projL|] == projL;
  }

  /** The channel above lmax never has a projector, so a local channel always exists. */
  lemma TopChannelIsFree(lmax: int, projL: seq<int>)
    requires lmax >= -1
    requires forall j :: 0 <= j < |projL| ==> 0 <= projL[j] <= lmax
    ensures IprojTable(lmax, projL)[lmax + 1] == -1
  {
  }

  /** The smallest l with no projector. */
  function LowestFree(iproj: seq<int>): (l: int)
    requires exists l :: 0 <= l < |iproj| && iproj[l] == -1
    ensures 0 <= l < |iproj| && iproj[l] == -1
    ensures forall k :: 0 <= k < l ==> iproj[k] != -1
  {
    LowestFreeFrom(iproj, 0)
  }

  function LowestFreeFrom(iproj: seq<int>, l: nat): (r: int)
    requires l <= |iproj|
    requires exists k :: l <= k < |iproj| && iproj[k] == -1
    ensures l <= r < |iproj| && iproj[r] == -1
    ensures forall k :: l <= k < r ==> iproj[k] != -1
    decreases |iproj| - l
  {
    if iproj[l] == -1 then l else LowestFreeFrom(iproj, l + 1)
  }

  /** The reverse loop that sets `upf_llocal`. */
  method LocalChannel(iproj: seq<int>) returns (llocal: int)
    requires exists l :: 0 <= l < |iproj| && iproj[l] == -1
    ensures 0 <= llocal < |iproj| && iproj[llocal] == -1
    ensures forall k :: 0 <= k < llocal ==> iproj[k] != -1
  {
    llocal := -1;
    var l := |iproj| - 1;
    while l >= 0
      invariant -1 <= l < |iproj|
      invariant llocal == -1 ==> forall k :: l < k < |iproj| ==> iproj[k] != -1
      invariant llocal != -1 ==> l < llocal < |iproj| && iproj[llocal] == -1
                                 && forall k :: l < k < llocal ==> iproj[k] != -1
    {
      if iproj[l] == -1 {
        llocal := l;
      }
      l := l - 1;
    }
  }

  /** `qso_lmax`: one more than lmax when the local channel lies above it. */
  function QsoLmax(lmax: int, llocal: int): (q: int)
    ensures q == lmax + 1 <==> llocal > lmax
    ensures q == lmax <==> llocal <= lmax
  {
    if lmax < llocal then lmax + 1 else lmax
  }

  /**
   * With projector l values in [0, lmax]: the local channel is at most
   * lmax+1 and at most qso_lmax, every block l = 0 .. qso_lmax has an
   * `iproj` entry, and below the local channel every l has a projector.
   */
  lemma ChannelLayout(lmax: int, projL: seq<int>)
    requires lmax >= -1
    requires forall j :: 0 <= j < |projL| ==> 0 <= projL[j] <= lmax
    ensures var t := IprojTable(lmax, projL);
            exists l :: 0 <= l < |t| && t[l] == -1
    ensures var t := IprojTable(lmax, projL);
            var llocal := LowestFree(t);
            var q := QsoLmax(lmax, llocal);
            && 0 <= llocal <= q <= lmax + 1 && q < |t|
            && forall l :: 0 <= l < llocal ==> 0 <= t[l] < |projL| && projL[t[l]] == l
  {
    TopChannelIsFree(lmax, projL);
  }

  // ------------------------------------------- wavefunction lookup by l

  /**
   * The index of the first wavefunction with angular momentum `l`, or
   * `|wfL|` for none, with the bounds test made before the element is read.
   */
  method FindWavefunction(wfL: seq<int>, l: int) returns (j: nat)
    ensures j <= |wfL|
    ensures j < |wfL| ==> wfL[j] == l
    ensures forall k :: 0 <= k < j ==> wfL[k] != l
    ensures j != |wfL| <==> l in wfL
  {
    j := 0;
    while j < |wfL| && wfL[j] != l
      invariant j <= |wfL|
      invariant forall k :: 0 <= k < j ==> wfL[k] != l
    {
      j := j + 1;
    }
  }

  /**
   * The indices `while (upf_wf_l[j] != l && j < upf_nwf) j++;` reads from
   * `upf_wf_l`, starting at `j`: the element is read before the bounds test.
   */
  function AsWrittenProbes(wfL: seq<int>, l: int, j: nat): (r: seq<nat>)
    requires j <= |wfL|
    ensures r != [] && r[0] == j
    decreases |wfL| - j
  {
    if j == |wfL| then [j]
    else if wfL[j] == l then [j]
    else [j] + AsWrittenProbes(wfL, l, j + 1)
  }

  /** When no wavefunction has momentum `l`, the as-written loop reads `upf_wf_l[nwf]`, past the end. */
  lemma {:induction false} AsWrittenReadsPastEnd(wfL: seq<int>, l: int, j: nat)
    requires j <= |wfL|
    requires forall k :: j <= k < |wfL| ==> wfL[k] != l
    ensures AsWrittenProbes(wfL, l, j)[|AsWrittenProbes(wfL, l, j)| - 1] == |wfL|
    decreases |wfL| - j
  {
    if j < |wfL| {
      AsWrittenReadsPastEnd(wfL, l, j + 1);
    }
  }

  /** A concrete case: one s wavefunction, a block for l = 1. */
  lemma AsWrittenOutOfBoundsExample()
    ensures AsWrittenProbes([0], 1, 0) == [0, 1]
  {
  }

  /** When some wavefunction has momentum `l`, the as-written loop stays in bounds. */
  lemma {:induction false} AsWrittenInBoundsWhenFound(wfL: seq<int>, l: int, j: nat)
    requires j <= |wfL|
    requires exists k :: j <= k < |wfL| && wfL[k] == l
    ensures forall i :: 0 <= i < |AsWrittenProbes(wfL, l, j)| ==> AsWrittenProbes(wfL, l, j)[i] < |wfL|
    decreases |wfL| - j
  {
    if wfL[j] != l {
      AsWrittenInBoundsWhenFound(wfL, l, j + 1);
    }
  }

  // ------------------------------------------------ projector blocks

  datatype PotentialSource = LocalPotential | ProjectorPotential(index: int)

  /** One `<projector l=...>` element: its l, its radial potential and its radial function, if any. */
  datatype Block = Block(l: int, potential: PotentialSource, wavefunction: Option<nat>)

  /**
   * The loop that writes the projector blocks l = 0 .. qso_lmax: the
   * local potential where `iproj[l] == -1`, else that projector's, and
   * the first wavefunction of momentum l when there is one.
   */
  method ProjectorBlocks(qsoLmax: int, iproj: seq<int>, wfL: seq<int>) returns (blocks: seq<Block>)
    requires -1 <= qsoLmax < |iproj|
    ensures |blocks| == qsoLmax + 1
    ensures forall l :: 0 <= l < |blocks| ==>
              && blocks[l].l == l
              && blocks[l].potential == (if iproj[l] == -1 then LocalPotential else ProjectorPotential(iproj[l]))
              && (blocks[l].wavefunction.Some? <==> l in wfL)
              && (blocks[l].wavefunction.Some? ==> var j := blocks[l].wavefunction.value;
                    j < |wfL| && wfL[j] == l && forall k :: 0 <= k < j ==> wfL[k] != l)
  {
    blocks := [];
    for l := 0 to qsoLmax + 1
      invariant |blocks| == l
      invariant forall m :: 0 <= m < l ==>
                  && blocks[m].l == m
                  && blocks[m].potential == (if iproj[m] == -1 then LocalPotential else ProjectorPotential(iproj[m]))
                  && (blocks[m].wavefunction.Some? <==> m in wfL)
                  && (blocks[m].wavefunction.Some? ==> var j := blocks[m].wavefunction.value;
                        j < |wfL| && wfL[j] == m && forall k :: 0 <= k < j ==> wfL[k] != m)
    {
      var potential := if iproj[l] == -1 then LocalPotential else ProjectorPotential(iproj[l]);
      var j := FindWavefunction(wfL, l);
      var found := j != |wfL|;
      blocks := blocks + [Block(l, potential, if found then Some(j) else None)];
    }
  }
}
