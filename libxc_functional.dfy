/**
 * `LIBXCFunctional`'s constructor: it reads the `LIBXC name:coeff ...`
 * description, looks each functional up in libxc, classifies the whole
 * combination as LDA, GGA or meta-GGA, and sizes the work buffers for that
 * family and the number of spins.
 *
 * libxc's `xc_functional_get_number` and `xc_family_from_id` and the C
 * library's `atof` are parameters of the constructor.
 */
module LibxcFunctional {
  import opened Words

  /** The libxc family codes this code distinguishes. */
  datatype Family = LDA | GGA | MGGA | HybGGA | HybMGGA | OtherFamily(code: int)

  predicate IsGGAFamily(f: Family) { f == GGA || f == HybGGA }

  predicate IsMetaFamily(f: Family) { f == MGGA || f == HybMGGA }

  /** Some family of `fams` is a GGA one. */
  function AnyGGA(fams: seq<Family>): (r: bool)
    ensures r <==> exists i :: 0 <= i < |fams| && IsGGAFamily(fams[i])
  {
    if fams == [] then false
    else IsGGAFamily(fams[|fams| - 1]) || AnyGGA(fams[..|fams| - 1])
  }

  /** Some family of `fams` is a meta-GGA one. */
  function AnyMeta(fams: seq<Family>): (r: bool)
    ensures r <==> exists i :: 0 <= i < |fams| && IsMetaFamily(fams[i])
  {
    if fams == [] then false
    else IsMetaFamily(fams[|fams| - 1]) || AnyMeta(fams[..|fams| - 1])
  }

  /** `_xcfamily` for the families of the component functionals. */
  function FamilyClass(fams: seq<Family>): (r: Family)
    ensures r == LDA || r == GGA || r == MGGA
  {
    if AnyMeta(fams) then MGGA else if AnyGGA(fams) then GGA else LDA
  }

  /**
   * The class does not depend on the order of the functionals: meta-GGA
   * if any is, else GGA if any is, else LDA.
   */
  lemma FamilyClassOrderFree(a: seq<Family>, b: seq<Family>)
    requires multiset(a) == multiset(b)
    ensures FamilyClass(a) == FamilyClass(b)
  {
    forall f ensures f in a <==> f in b {
      assert f in a <==> f in multiset(a);
      assert f in b <==> f in multiset(b);
    }
    if AnyMeta(a) {
      var i :| 0 <= i < |a| && IsMetaFamily(a[i]);
      assert a[i] in b;
    }
    if AnyMeta(b) {
      var i :| 0 <= i < |b| && IsMetaFamily(b[i]);
      assert b[i] in a;
    }
    if AnyGGA(a) {
      var i :| 0 <= i < |a| && IsGGAFamily(a[i]);
      assert a[i] in b;
    }
    if AnyGGA(b) {
      var i :| 0 <= i < |b| && IsGGAFamily(b[i]);
      assert b[i] in a;
    }
  }

  /**
   * The positions of the non-HF terms in `terms`, increasing; each is
   * listed exactly once (NonHFPositionsComplete).
   */
  function NonHFPositions(terms: seq<string>): (ps: seq<nat>)
    ensures forall i :: 0 <= i < |ps| ==> ps[i] < |terms| && !IsHFTerm(terms[ps[i]])
    ensures forall i, j :: 0 <= i < j < |ps| ==> ps[i] < ps[j]
  {
    if terms == [] then []
    else
      var n := |terms| - 1;
      var front := terms[..n];
      assert forall k :: 0 <= k < n ==> front[k] == terms[k];
      NonHFPositions(front) + (if IsHFTerm(terms[n]) then [] else [n])
  }

  /** Every non-HF position is listed. */
  lemma {:induction false} NonHFPositionsComplete(terms: seq<string>, k: nat)
    requires k < |terms| && !IsHFTerm(terms[k])
    ensures k in NonHFPositions(terms)
  {
    var n := |terms| - 1;
    if k < n {
      NonHFPositionsComplete(terms[..n], k);
    }
  }

  /** The terms other than HF ones. */
  function NonHF(terms: seq<string>): (r: seq<string>)
    ensures |r| <= |terms|
    ensures forall t :: t in r <==> t in terms && !IsHFTerm(t)
  {
    if terms == [] then []
    else
      var last := terms[|terms| - 1];
      assert terms == terms[..|terms| - 1] + [last];
      NonHF(terms[..|terms| - 1]) + (if IsHFTerm(last) then [] else [last])
  }

  /**
   * The kept terms are the non-HF terms read off at their positions, so
   * each occurs as often as in `terms` and in the same order.
   */
  lemma {:induction false} NonHFInOrder(terms: seq<string>)
    ensures |NonHF(terms)| == |NonHFPositions(terms)|
    ensures forall i :: 0 <= i < |NonHF(terms)| ==> NonHF(terms)[i] == terms[NonHFPositions(terms)[i]]
  {
    if terms != [] {
      var n := |terms| - 1;
      var front := terms[..n];
      NonHFInOrder(front);
      var tail := if IsHFTerm(terms[n]) then [] else [n];
      assert NonHFPositions(terms) == NonHFPositions(front) + tail;
      assert NonHF(terms) == NonHF(front) + (if IsHFTerm(terms[n]) then [] else [terms[n]]);
      forall i | 0 <= i < |NonHF(terms)|
        ensures NonHF(terms)[i] == terms[NonHFPositions(terms)[i]]
      {
        if i < |NonHF(front)| {
          assert front[NonHFPositions(front)[i]] == terms[NonHFPositions(front)[i]];
        }
      }
    }
  }

  /** The terms that name a libxc functional: the words after the first, less HF. */
  function FunctionalTerms(toks: seq<string>): seq<string> {
    if toks == [] then [] else NonHF(toks[1..])
  }

  /** The first word of the description plays no part. */
  lemma FirstWordIgnored(w: string, v: string, rest: seq<string>)
    ensures FunctionalTerms([w] + rest) == FunctionalTerms([v] + rest)
  {
    assert ([w] + rest)[1..] == rest == ([v] + rest)[1..];
  }

  /** A further word adds itself unless it is the first one or an HF term. */
  lemma FunctionalTermsSnoc(toks: seq<string>, t: string)
    ensures FunctionalTerms(toks + [t]) == FunctionalTerms(toks) + (if toks == [] || IsHFTerm(t) then [] else [t])
  {
    if toks != [] {
      assert (toks + [t])[1..] == toks[1..] + [t];
      assert (toks[1..] + [t])[..|toks[1..]|] == toks[1..];
    }
  }

  /** Reading word `n` of the description extends the terms read so far by at most that word. */
  lemma FunctionalTermsStep(toks: seq<string>, n: nat)
    requires n < |toks|
    ensures FunctionalTerms(toks[..n + 1]) == FunctionalTerms(toks[..n]) + (if n == 0 || IsHFTerm(toks[n]) then [] else [toks[n]])
  {
    assert toks[..n + 1] == toks[..n] + [toks[n]];
    FunctionalTermsSnoc(toks[..n], toks[n]);
  }

  /** The libxc id of each term: that of its name part. */
  function TermIds(terms: seq<string>, getNumber: string -> int): (r: seq<int>)
    ensures |r| == |terms|
    ensures forall i :: 0 <= i < |terms| ==> r[i] == getNumber(NamePart(terms[i]))
  {
    if terms == [] then []
    else TermIds(terms[..|terms| - 1], getNumber) + [getNumber(NamePart(terms[|terms| - 1]))]
  }

  /** The coefficient of each term: `atof` of the text after its colon. */
  function TermCoeffs(terms: seq<string>, atof: string -> real): (r: seq<real>)
    ensures |r| == |terms|
    ensures forall i :: 0 <= i < |terms| ==> r[i] == atof(CoeffText(terms[i]))
  {
    if terms == [] then []
    else TermCoeffs(terms[..|terms| - 1], atof) + [atof(CoeffText(terms[|terms| - 1]))]
  }

  lemma TermsSnoc(terms: seq<string>, t: string, getNumber: string -> int, atof: string -> real)
    ensures TermIds(terms + [t], getNumber) == TermIds(terms, getNumber) + [getNumber(NamePart(t))]
    ensures TermCoeffs(terms + [t], atof) == TermCoeffs(terms, atof) + [atof(CoeffText(t))]
  {
    assert (terms + [t])[..|terms|] == terms;
  }

  /**
   * The `while (ss >> tempbuf)` loop: one libxc id and one coefficient per
   * functional term, in the order of the description.
   */
  method ParseTerms(description: string, getNumber: string -> int, atof: string -> real)
    returns (ids: seq<int>, coeffs: seq<real>)
    ensures ids == TermIds(FunctionalTerms(Tokens(description)), getNumber)
    ensures coeffs == TermCoeffs(FunctionalTerms(Tokens(description)), atof)
  {
    var toks := Tokens(description);
    ids, coeffs := [], [];
    ghost var terms: seq<string> := [];
    var n := 0;
    while n < |toks|
      invariant 0 <= n <= |toks|
      invariant terms == FunctionalTerms(toks[..n])
      invariant ids == TermIds(terms, getNumber) && coeffs == TermCoeffs(terms, atof)
    {
      FunctionalTermsStep(toks, n);
      if n > 0 {
        var name := NamePart(toks[n]);
        var coeff := atof(CoeffText(toks[n]));
        if name != "HF" {
          TermsSnoc(terms, toks[n], getNumber, atof);
          ids := ids + [getNumber(name)];
          coeffs := coeffs + [coeff];
          terms := terms + [toks[n]];
        }
      }
      n := n + 1;
    }
    assert toks[..n] == toks;
  }

  /** One family per functional id, in the same order. */
  method FamiliesOf(ids: seq<int>, familyFromId: int -> Family) returns (fams: seq<Family>)
    ensures |fams| == |ids|
    ensures forall i :: 0 <= i < |ids| ==> fams[i] == familyFromId(ids[i])
  {
    fams := [];
    for i := 0 to |ids|
      invariant |fams| == i
      invariant forall k :: 0 <= k < i ==> fams[k] == familyFromId(ids[k])
    {
      fams := fams + [familyFromId(ids[i])];
    }
  }

  /** The two overwriting loops that set `_xcfamily`, starting from LDA. */
  method ClassifyFamilies(fams: seq<Family>) returns (family: Family)
    ensures family == FamilyClass(fams)
  {
    family := LDA;
    for i := 0 to |fams|
      invariant family == (if AnyGGA(fams[..i]) then GGA else LDA)
    {
      assert fams[..i + 1] == fams[..i] + [fams[i]];
      assert fams[..i + 1][..i] == fams[..i];
      if fams[i] == GGA || fams[i] == HybGGA {
        family := GGA;
      }
    }
    assert fams[..|fams|] == fams;
    for i := 0 to |fams|
      invariant family == (if AnyMeta(fams[..i]) then MGGA else if AnyGGA(fams) then GGA else LDA)
    {
      assert fams[..i + 1] == fams[..i] + [fams[i]];
      assert fams[..i + 1][..i] == fams[..i];
      if fams[i] == MGGA || fams[i] == HybMGGA {
        family := MGGA;
      }
    }
    assert fams[..|fams|] == fams;
  }

  function Zeros(n: nat): (r: seq<real>)
    ensures |r| == n && forall i :: 0 <= i < n ==> r[i] == 0.0
  {
    seq(n, _ => 0.0)
  }

  /** The lengths of the constructor's work buffers. */
  datatype Buffers = Buffers(
    exc: nat, vxc: seq<nat>,
    excUp: nat, excDn: nat,
    vxc1: nat, vxc1Up: nat, vxc1Dn: nat,
    vxc2: nat, vxc2UpUp: nat, vxc2UpDn: nat, vxc2DnUp: nat, vxc2DnDn: nat,
    gradRho: seq<nat>, gradRhoUp: seq<nat>, gradRhoDn: seq<nat>,
    vxc3: nat)

  /**
   * The buffer lengths for a family, a spin count and a number of grid
   * points: what the `switch (_xcfamily)` resizes, everything else empty.
   */
  function AllocatedBuffers(family: Family, nspin: nat, np: nat): (b: Buffers)
    ensures family == LDA ==> b.exc == np && b.vxc == seq(nspin, _ => np) && b.vxc1 == 0 && b.vxc3 == 0
    ensures family != LDA && nspin == 1 ==>
              b.exc == b.vxc1 == b.vxc2 == np && b.gradRho == [np, np, np] && b.vxc == [] && b.excUp == 0
    ensures family != LDA && nspin != 1 ==>
              b.excUp == b.excDn == b.vxc1Up == b.vxc1Dn == np
              && b.vxc2UpUp == b.vxc2UpDn == b.vxc2DnUp == b.vxc2DnDn == np
              && b.gradRhoUp == b.gradRhoDn == [np, np, np]
              && b.exc == b.vxc1 == b.vxc2 == b.vxc3 == 0 && b.gradRho == [0, 0, 0]
    ensures b.vxc3 == np ==> np == 0 || (family == MGGA && nspin == 1)
  {
    var none := Buffers(0, [], 0, 0, 0, 0, 0, 0, 0, 0, 0, 0, [0, 0, 0], [0, 0, 0], [0, 0, 0], 0);
    if family == LDA then
      none.(exc := np, vxc := seq(nspin, _ => np))
    else if nspin == 1 then
      none.(exc := np, vxc1 := np, vxc2 := np, gradRho := [np, np, np],
            vxc3 := if family == MGGA then np else 0)
    else
      none.(excUp := np, excDn := np, vxc1Up := np, vxc1Dn := np,
            vxc2UpUp := np, vxc2UpDn := np, vxc2DnUp := np, vxc2DnDn := np,
            gradRhoUp := [np, np, np], gradRhoDn := [np, np, np])
  }

  /** Spin-polarised meta-GGA allocates exactly the spin-polarised GGA set: no tau/vxc3 buffers. */
  lemma PolarisedMetaLikeGGA(nspin: nat, np: nat)
    requires nspin != 1
    ensures AllocatedBuffers(MGGA, nspin, np) == AllocatedBuffers(GGA, nspin, np)
    ensures AllocatedBuffers(MGGA, nspin, np).vxc3 == 0
  {
  }

  /** Unpolarised meta-GGA is the GGA set plus vxc3. */
  lemma UnpolarisedMetaAddsVxc3(np: nat)
    ensures AllocatedBuffers(MGGA, 1, np) == AllocatedBuffers(GGA, 1, np).(vxc3 := np)
  {
  }

  function Lengths(bufs: seq<seq<real>>): (r: seq<nat>)
    ensures |r| == |bufs| && forall i :: 0 <= i < |bufs| ==> r[i] == |bufs[i]|
  {
    seq(|bufs|, i requires 0 <= i < |bufs| => |bufs[i]|)
  }

  /** The constructor's work buffers themselves. */
  datatype WorkBuffers = WorkBuffers(
    exc: seq<real>, vxc: seq<seq<real>>,
    excUp: seq<real>, excDn: seq<real>,
    vxc1: seq<real>, vxc1Up: seq<real>, vxc1Dn: seq<real>,
    vxc2: seq<real>, vxc2UpUp: seq<real>, vxc2UpDn: seq<real>, vxc2DnUp: seq<real>, vxc2DnDn: seq<real>,
    gradRho: seq<seq<real>>, gradRhoUp: seq<seq<real>>, gradRhoDn: seq<seq<real>>,
    vxc3: seq<real>)

  function Measure(w: WorkBuffers): Buffers {
    Buffers(|w.exc|, Lengths(w.vxc), |w.excUp|, |w.excDn|, |w.vxc1|, |w.vxc1Up|, |w.vxc1Dn|,
            |w.vxc2|, |w.vxc2UpUp|, |w.vxc2UpDn|, |w.vxc2DnUp|, |w.vxc2DnDn|,
            Lengths(w.gradRho), Lengths(w.gradRhoUp), Lengths(w.gradRhoDn), |w.vxc3|)
  }

  predicate ZeroFilled(s: seq<real>) { forall i :: 0 <= i < |s| ==> s[i] == 0.0 }

  predicate ZeroRows(rows: seq<seq<real>>) { forall k :: 0 <= k < |rows| ==> ZeroFilled(rows[k]) }

  /** Every entry of every work buffer is zero. */
  predicate AllZero(w: WorkBuffers) {
    && ZeroFilled(w.exc) && ZeroRows(w.vxc) && ZeroFilled(w.excUp) && ZeroFilled(w.excDn)
    && ZeroFilled(w.vxc1) && ZeroFilled(w.vxc1Up) && ZeroFilled(w.vxc1Dn)
    && ZeroFilled(w.vxc2) && ZeroFilled(w.vxc2UpUp) && ZeroFilled(w.vxc2UpDn)
    && ZeroFilled(w.vxc2DnUp) && ZeroFilled(w.vxc2DnDn)
    && ZeroRows(w.gradRho) && ZeroRows(w.gradRhoUp) && ZeroRows(w.gradRhoDn) && ZeroFilled(w.vxc3)
  }

  /**
   * The `switch (_xcfamily)`: resize the buffers the family and spin count
   * need (one `_vxc` row per spin for LDA), each to `np` zeros.
   */
  method AllocateBuffers(family: Family, nspin: nat, np: nat) returns (w: WorkBuffers)
    ensures Measure(w) == AllocatedBuffers(family, nspin, np)
    ensures AllZero(w)
  {
    var z := Zeros(np);
    w := WorkBuffers([], [], [], [], [], [], [], [], [], [], [], [], [[], [], []], [[], [], []], [[], [], []], []);
    if family == LDA {
      var rows: seq<seq<real>> := seq(nspin, _ => []);
      for i := 0 to nspin
        invariant |rows| == nspin
        invariant forall k :: 0 <= k < i ==> rows[k] == z
      {
        rows := rows[i := z];
      }
      assert Lengths(rows) == seq(nspin, _ => np);
      w := w.(exc := z, vxc := rows);
    } else if nspin == 1 {
      w := w.(exc := z, vxc1 := z, vxc2 := z, gradRho := [z, z, z],
              vxc3 := if family == MGGA then z else []);
    } else {
      w := w.(excUp := z, excDn := z, vxc1Up := z, vxc1Dn := z,
              vxc2UpUp := z, vxc2UpDn := z, vxc2DnUp := z, vxc2DnDn := z,
              gradRhoUp := [z, z, z], gradRhoDn := [z, z, z]);
    }
  }

  class LIBXCFunctional {
    var xcFamily: Family
    var funcIds: seq<int>
    var funcFamilies: seq<Family>
    var funcCoeffs: seq<real>
    var nspin: int
    var np: int
    var exc: seq<real>
    var vxc: seq<seq<real>>
    var excUp: seq<real>
    var excDn: seq<real>
    var vxc1: seq<real>
    var vxc1Up: seq<real>
    var vxc1Dn: seq<real>
    var vxc2: seq<real>
    var vxc2UpUp: seq<real>
    var vxc2UpDn: seq<real>
    var vxc2DnUp: seq<real>
    var vxc2DnDn: seq<real>
    var gradRho: seq<seq<real>>
    var gradRhoUp: seq<seq<real>>
    var gradRhoDn: seq<seq<real>>
    var vxc3: seq<real>

    /** The work buffers, as one record. */
    function Contents(): WorkBuffers
      reads this
    {
      WorkBuffers(exc, vxc, excUp, excDn, vxc1, vxc1Up, vxc1Dn,
                  vxc2, vxc2UpUp, vxc2UpDn, vxc2DnUp, vxc2DnDn,
                  gradRho, gradRhoUp, gradRhoDn, vxc3)
    }

    /** The ids, families and coefficients are parallel, and the class follows from the families. */
    ghost predicate Valid()
      reads this
    {
      && |funcIds| == |funcFamilies| == |funcCoeffs|
      && xcFamily == FamilyClass(funcFamilies)
      && nspin >= 1 && np >= 0
      && Measure(Contents()) == AllocatedBuffers(xcFamily, nspin, np)
    }

    /**
     * The constructor for densities `rhoe` (one array per spin) and a
     * `LIBXC ...` description. `rhoe[0]` is read unconditionally and two
     * spin channels must have the same length (an assertion in the source).
     */
    constructor(rhoe: seq<seq<real>>, description: string,
                getNumber: string -> int, familyFromId: int -> Family, atof: string -> real)
      requires |rhoe| >= 1
      requires |rhoe| > 1 ==> |rhoe[0]| == |rhoe[1]|
      ensures Valid()
      ensures funcIds == TermIds(FunctionalTerms(Tokens(description)), getNumber)
      ensures funcCoeffs == TermCoeffs(FunctionalTerms(Tokens(description)), atof)
      ensures forall i :: 0 <= i < |funcIds| ==> funcFamilies[i] == familyFromId(funcIds[i])
      ensures nspin == |rhoe| && np == |rhoe[0]|
      ensures AllZero(Contents())
    {
      var ids, coeffs := ParseTerms(description, getNumber, atof);
      var fams := FamiliesOf(ids, familyFromId);
      var family := ClassifyFamilies(fams);
      funcIds, funcCoeffs, funcFamilies, xcFamily := ids, coeffs, fams, family;

      var ns := |rhoe|;
      var n := |rhoe[0]|;
      nspin, np := ns, n;
      var w := AllocateBuffers(family, ns, n);
      exc, vxc, excUp, excDn := w.exc, w.vxc, w.excUp, w.excDn;
      vxc1, vxc1Up, vxc1Dn := w.vxc1, w.vxc1Up, w.vxc1Dn;
      vxc2, vxc2UpUp, vxc2UpDn, vxc2DnUp, vxc2DnDn := w.vxc2, w.vxc2UpUp, w.vxc2UpDn, w.vxc2DnUp, w.vxc2DnDn;
      gradRho, gradRhoUp, gradRhoDn, vxc3 := w.gradRho, w.gradRhoUp, w.gradRhoDn, w.vxc3;
    }

    /** `isGGA()`: anything but LDA, so a meta-GGA also reports GGA. */
    function IsGGA(): (r: bool)
      reads this
      requires Valid()
      ensures r <==> exists i :: 0 <= i < |funcFamilies| && (IsGGAFamily(funcFamilies[i]) || IsMetaFamily(funcFamilies[i]))
    {
      xcFamily != LDA
    }

    /** `ismGGA()`: the class is meta-GGA. */
    function IsMGGA(): (r: bool)
      reads this
      requires Valid()
      ensures r <==> exists i :: 0 <= i < |funcFamilies| && IsMetaFamily(funcFamilies[i])
      ensures r ==> IsGGA()
    {
      xcFamily == MGGA
    }
  }
}
