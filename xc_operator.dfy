/**
 * `XCOperator`: built from the sample's `ctrl.xc` string, it decides from
 * the first word whether a local/semilocal XC potential and/or a
 * Hartree-Fock exchange operator is needed and with which mixing
 * coefficient, and `update` combines their energies and stresses.
 *
 * The potential (`XCPotential`) and the exchange operator
 * (`ExchangeOperator`) are opaque here: what the potential reports from
 * `isGGA()`, what `atof` makes of a coefficient, and the energies and
 * stresses they compute are parameters.
 */
module XcOperator {
  import opened Results
  import opened Words
  import XcVar

  /** The first words the constructor knows. */
  const KnownFunctionals: set<string> := {"LIBXC", "LDA", "VWN", "PBE", "BLYP", "HF", "PBE0", "B3LYP"}

  datatype XCOperatorException = XCOperatorException(message: string)

  /** The operator flags and the HF mixing coefficient. */
  datatype Flags = Flags(hasPotential: bool, hasGGA: bool, hasHF: bool, hfMixCoeff: real)

  /** `exc_` and `dxc_` after an update. */
  datatype Energies = Energies(exc: real, dxc: real)

  /** Index of the last HF term of `terms`, -1 when there is none. */
  function LastHFIndex(terms: seq<string>): (r: int)
    ensures -1 <= r < |terms|
    ensures r >= 0 ==> IsHFTerm(terms[r])
    ensures forall k :: r < k < |terms| ==> !IsHFTerm(terms[k])
  {
    if terms == [] then -1
    else if IsHFTerm(terms[|terms| - 1]) then |terms| - 1
    else LastHFIndex(terms[..|terms| - 1])
  }

  /** The coefficient of the last HF term of `terms`, None when there is none. */
  function LastHFCoeff(terms: seq<string>, atof: string -> real): (r: Option<real>)
    ensures r.None? <==> forall i :: 0 <= i < |terms| ==> !IsHFTerm(terms[i])
    ensures r.Some? ==> r.value == atof(CoeffText(terms[LastHFIndex(terms)]))
  {
    var i := LastHFIndex(terms);
    if i < 0 then None else Some(atof(CoeffText(terms[i])))
  }

  /** One more term: it takes over when it is an HF term. */
  lemma LastHFCoeffSnoc(terms: seq<string>, t: string, atof: string -> real)
    ensures LastHFCoeff(terms + [t], atof) == if IsHFTerm(t) then Some(atof(CoeffText(t))) else LastHFCoeff(terms, atof)
  {
    assert (terms + [t])[..|terms|] == terms;
  }

  /** Scanning word `i` of the description: it takes over when it is an HF term. */
  lemma LastHFCoeffStep(toks: seq<string>, i: nat, atof: string -> real)
    requires 1 <= i < |toks|
    ensures LastHFCoeff(toks[1..i + 1], atof) == if IsHFTerm(toks[i]) then Some(atof(CoeffText(toks[i]))) else LastHFCoeff(toks[1..i], atof)
  {
    assert toks[1..i + 1] == toks[1..i] + [toks[i]];
    LastHFCoeffSnoc(toks[1..i], toks[i], atof);
  }

  /**
   * The constructor's decision for the words of `xc`: the flags, or the
   * exception for an unknown first word. `isGGA` stands for the potential's
   * `isGGA()` given the name it is built with, `alphaPBE0` for
   * `ctrl.alpha_PBE0`.
   */
  function Dispatch(xc: string, alphaPBE0: real, isGGA: string -> bool, atof: string -> real): (r: Result<Flags, XCOperatorException>)
    requires Tokens(xc) != []
    ensures r.Success? <==> Tokens(xc)[0] in KnownFunctionals
    ensures r.Success? ==> r.value.hasPotential || r.value.hasHF
    ensures r.Success? && !r.value.hasPotential ==> !r.value.hasGGA && r.value.hasHF && r.value.hfMixCoeff == 1.0
    ensures r.Success? && !r.value.hasHF ==> r.value.hfMixCoeff == 0.0
    ensures r.Success? && r.value.hasHF && Tokens(xc)[0] != "LIBXC" ==> Tokens(xc)[0] in {"HF", "PBE0", "B3LYP"}
  {
    var toks := Tokens(xc);
    var name := toks[0];
    if name == "LIBXC" then
      var hf := LastHFCoeff(toks[1..], atof);
      Success(Flags(true, isGGA(xc), hf.Some?, if hf.Some? then hf.value else 0.0))
    else if name == "LDA" || name == "VWN" || name == "PBE" || name == "BLYP" then
      Success(Flags(true, isGGA(name), false, 0.0))
    else if name == "HF" then
      Success(Flags(false, false, true, 1.0))
    else if name == "PBE0" then
      Success(Flags(true, isGGA(name), true, alphaPBE0))
    else if name == "B3LYP" then
      Success(Flags(true, isGGA(name), true, 0.20))
    else
      Failure(XCOperatorException("unknown functional name during exchange operator construction"))
  }

  /**
   * For a LIBXC description, HF exchange is on exactly when a later word
   * is named HF, and its coefficient is that of the last such word.
   */
  lemma LibxcHybrid(xc: string, alphaPBE0: real, isGGA: string -> bool, atof: string -> real)
    requires Tokens(xc) != [] && Tokens(xc)[0] == "LIBXC"
    ensures var f := Dispatch(xc, alphaPBE0, isGGA, atof).value;
            && f.hasPotential && f.hasGGA == isGGA(xc)
            && (f.hasHF <==> exists i :: 1 <= i < |Tokens(xc)| && IsHFTerm(Tokens(xc)[i]))
            && (f.hasHF ==> exists i :: 1 <= i < |Tokens(xc)| && IsHFTerm(Tokens(xc)[i])
                                       && f.hfMixCoeff == atof(CoeffText(Tokens(xc)[i]))
                                       && forall k :: i < k < |Tokens(xc)| ==> !IsHFTerm(Tokens(xc)[k]))
  {
    var toks := Tokens(xc);
    var f := Dispatch(xc, alphaPBE0, isGGA, atof).value;
    var i := LastHFIndex(toks[1..]);
    if f.hasHF {
      assert IsHFTerm(toks[i + 1]);
      forall k | i + 1 < k < |toks| ensures !IsHFTerm(toks[k]) {
        assert toks[k] == toks[1..][k - 1];
      }
    } else {
      forall j | 1 <= j < |toks| ensures !IsHFTerm(toks[j]) {
        assert toks[j] == toks[1..][j - 1];
      }
    }
  }

  /** Every value that `Xc::set` accepts has a first word the constructor dispatches. */
  lemma AcceptedValuesDispatch(argv: seq<string>, alphaPBE0: real, isGGA: string -> bool, atof: string -> real)
    requires |argv| >= 2 && XcVar.SetValue(argv).Some?
    ensures Tokens(XcVar.SetValue(argv).value) != []
    ensures Dispatch(XcVar.SetValue(argv).value, alphaPBE0, isGGA, atof).Success?
  {
    if |argv| > 2 && argv[1] == "LIBXC" {
      XcVar.LibxcValueFirstToken(argv);
    } else {
      var w := argv[1];
      assert w in XcVar.SingleWordFunctionals;
      assert IsWord(w) by {
        assert w == "LDA" || w == "VWN" || w == "PBE" || w == "BLYP" || w == "HF" || w == "PBE0" || w == "B3LYP";
      }
      TokensOfWord(w);
    }
  }

  /** `exc_` and `dxc_` after `update`, from the potential's and the HF energies. */
  function UpdatedEnergies(f: Flags, potExc: real, potDxc: real, exHF: real): (e: Energies)
    ensures e.exc + e.dxc == if f.hasPotential then potExc + potDxc else 0.0
    ensures !f.hasHF ==> e == if f.hasPotential then Energies(potExc, potDxc) else Energies(0.0, 0.0)
  {
    var base := if f.hasPotential then Energies(potExc, potDxc) else Energies(0.0, 0.0);
    if f.hasHF then Energies(base.exc + exHF, base.dxc - exHF) else base
  }

  /** The six-component zero stress (`sigma_exc_` after `resize(6)` or `= 0.0`). */
  const ZeroStress: seq<real> := [0.0, 0.0, 0.0, 0.0, 0.0, 0.0]

  /** Element-wise sum, the effect of `add_stress` on the stress array. */
  function AddStress(a: seq<real>, b: seq<real>): (r: seq<real>)
    requires |a| == |b|
    ensures |r| == |a| && forall i :: 0 <= i < |a| ==> r[i] == a[i] + b[i]
  {
    seq(|a|, i requires 0 <= i < |a| => a[i] + b[i])
  }

  /**
   * `sigma_exc_` after `update`: the potential's stress when it is asked
   * for, the previous value when it is not, zero without a potential, plus
   * the HF stress when that is asked for.
   */
  function UpdatedStress(f: Flags, computeStress: bool, sigma: seq<real>, potStress: seq<real>, hfStress: seq<real>): (r: seq<real>)
    requires |sigma| == 6 && |potStress| == 6 && |hfStress| == 6
    ensures |r| == 6
    ensures !f.hasPotential && !(f.hasHF && computeStress) ==> r == ZeroStress
    ensures f.hasPotential && !computeStress ==> r == sigma
    ensures !f.hasHF && computeStress ==> r == if f.hasPotential then potStress else ZeroStress
  {
    var base := if !f.hasPotential then ZeroStress else if computeStress then potStress else sigma;
    if f.hasHF && computeStress then AddStress(base, hfStress) else base
  }

  /** An XC potential, reduced to the name it was built with and its `isGGA()`. */
  class XCPotential {
    const functional: string
    const isGGA: bool

    constructor(functional: string, isGGA: bool)
      ensures this.functional == functional && this.isGGA == isGGA
    {
      this.functional := functional;
      this.isGGA := isGGA;
    }
  }

  /** A Hartree-Fock exchange operator, reduced to its mixing coefficient. */
  class ExchangeOperator {
    const mixCoeff: real

    constructor(mixCoeff: real)
      ensures this.mixCoeff == mixCoeff
    {
      this.mixCoeff := mixCoeff;
    }
  }

  class XCOperator {
    var xcp: XCPotential?
    var xop: ExchangeOperator?
    var hasPotential: bool
    var hasGGA: bool
    var hasHF: bool
    var hfMixCoeff: real
    var exc: real
    var dxc: real
    var sigmaExc: seq<real>

    /** The potential exists iff it is used, likewise the exchange operator. */
    ghost predicate Valid()
      reads this, xcp, xop
    {
      && (hasPotential <==> xcp != null)
      && (hasHF <==> xop != null)
      && (xcp != null ==> hasGGA == xcp.isGGA)
      && (xcp == null ==> !hasGGA)
      && (xop != null ==> xop.mixCoeff == hfMixCoeff)
      && |sigmaExc| == 6
    }

    function CurrentFlags(): Flags
      reads this
    {
      Flags(hasPotential, hasGGA, hasHF, hfMixCoeff)
    }

    /**
     * The constructor for a known first word (unknown ones go through
     * `Create`, which raises the exception). `ctrl.xc` is split into words,
     * which must not be empty: the first word is read unconditionally.
     */
    constructor(ctrl: XcVar.Control, isGGA: string -> bool, atof: string -> real)
      requires Tokens(ctrl.xc) != [] && Tokens(ctrl.xc)[0] in KnownFunctionals
      ensures Valid()
      ensures CurrentFlags() == Dispatch(ctrl.xc, ctrl.alphaPBE0, isGGA, atof).value
      ensures exc == 0.0 && dxc == 0.0 && sigmaExc == ZeroStress
    {
      var toks := Tokens(ctrl.xc);
      var name := toks[0];
      var pot: XCPotential? := null;
      var op: ExchangeOperator? := null;
      var hp, gga, hf, mix := false, false, false, 0.0;
      if name == "LIBXC" {
        pot := new XCPotential(ctrl.xc, isGGA(ctrl.xc));
        hp, gga, hf, mix := true, pot.isGGA, false, 0.0;
        var i := 1;
        while i < |toks|
          invariant 1 <= i <= |toks|
          invariant hf == LastHFCoeff(toks[1..i], atof).Some?
          invariant mix == if hf then LastHFCoeff(toks[1..i], atof).value else 0.0
          invariant (op != null <==> hf) && (op != null ==> op.mixCoeff == mix)
        {
          LastHFCoeffStep(toks, i, atof);
          if NamePart(toks[i]) == "HF" {
            hf := true;
            mix := atof(CoeffText(toks[i]));
            op := new ExchangeOperator(mix);
          }
          i := i + 1;
        }
        assert toks[1..i] == toks[1..];
      } else if name == "LDA" || name == "VWN" || name == "PBE" || name == "BLYP" {
        pot := new XCPotential(name, isGGA(name));
        hp, gga, hf, mix := true, pot.isGGA, false, 0.0;
      } else if name == "HF" {
        op := new ExchangeOperator(1.0);
        hp, gga, hf, mix := false, false, true, 1.0;
      } else if name == "PBE0" {
        pot := new XCPotential(name, isGGA(name));
        op := new ExchangeOperator(ctrl.alphaPBE0);
        hp, gga, hf, mix := true, pot.isGGA, true, ctrl.alphaPBE0;
      } else {
        pot := new XCPotential(name, isGGA(name));
        op := new ExchangeOperator(0.20);
        hp, gga, hf, mix := true, pot.isGGA, true, 0.20;
      }
      xcp, xop := pot, op;
      hasPotential, hasGGA, hasHF, hfMixCoeff := hp, gga, hf, mix;
      exc, dxc, sigmaExc := 0.0, 0.0, ZeroStress;
    }

    /** Construction with the exception path: fails exactly for an unknown first word. */
    static method Create(ctrl: XcVar.Control, isGGA: string -> bool, atof: string -> real)
      returns (r: Result<XCOperator, XCOperatorException>)
      requires Tokens(ctrl.xc) != []
      ensures r.Failure? <==> Tokens(ctrl.xc)[0] !in KnownFunctionals
      ensures r.Success? ==> fresh(r.value) && r.value.Valid()
      ensures r.Success? ==> r.value.CurrentFlags() == Dispatch(ctrl.xc, ctrl.alphaPBE0, isGGA, atof).value
    {
      if Tokens(ctrl.xc)[0] in KnownFunctionals {
        var op := new XCOperator(ctrl, isGGA, atof);
        r := Success(op);
      } else {
        r := Failure(XCOperatorException("unknown functional name during exchange operator construction"));
      }
    }

    /**
     * `update(vr, compute_stress)`. The potential's energies and stress and
     * the exchange operator's energy and stress are what those objects
     * compute; they are given here.
     */
    method Update(computeStress: bool, potExc: real, potDxc: real, potStress: seq<real>,
                  exHF: real, hfStress: seq<real>)
      requires Valid() && |potStress| == 6 && |hfStress| == 6
      modifies this
      ensures Valid() && CurrentFlags() == old(CurrentFlags())
      ensures xcp == old(xcp) && xop == old(xop)
      ensures Energies(exc, dxc) == UpdatedEnergies(CurrentFlags(), potExc, potDxc, exHF)
      ensures sigmaExc == UpdatedStress(CurrentFlags(), computeStress, old(sigmaExc), potStress, hfStress)
    {
      if hasPotential {
        exc := potExc;
        dxc := potDxc;
        if computeStress {
          sigmaExc := potStress;
        }
      } else {
        exc := 0.0;
        dxc := 0.0;
        sigmaExc := ZeroStress;
      }
      if hasHF {
        var exHf := exHF;
        exc := exc + exHf;
        dxc := dxc - exHf;
        if computeStress {
          sigmaExc := AddStress(sigmaExc, hfStress);
        }
      }
    }

    /** `compute_stress(sigma)`: hands out the stress of the last update. */
    method ComputeStress() returns (sigma: seq<real>)
      requires Valid()
      ensures sigma == sigmaExc && |sigma| == 6
    {
      sigma := sigmaExc;
    }
  }
}
