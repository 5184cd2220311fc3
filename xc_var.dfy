/**
 * The `xc` user variable: `Xc::set` validates the words given to
 * `set xc ...` and stores the functional description in the sample's
 * control record; `Xc::print` formats the current value.
 */
module XcVar {
  import opened Results
  import opened Words

  /** The functionals accepted as a single word. */
  const SingleWordFunctionals: set<string> := {"LDA", "VWN", "PBE", "BLYP", "HF", "PBE0", "B3LYP"}

  /** The part of a sample's control record that the xc code reads and writes. */
  class Control {
    var xc: string
    var alphaPBE0: real

    constructor(xc: string, alphaPBE0: real)
      ensures this.xc == xc && this.alphaPBE0 == alphaPBE0
    {
      this.xc := xc;
      this.alphaPBE0 := alphaPBE0;
    }
  }

  /**
   * The value `set` stores for `argv` (argc == |argv|), or None when it
   * refuses: several words only after LIBXC, otherwise exactly one word
   * from the fixed list.
   */
  function SetValue(argv: seq<string>): (r: Option<string>)
    requires |argv| >= 2
    ensures r.Some? <==> (|argv| > 2 && argv[1] == "LIBXC") || (|argv| == 2 && argv[1] in SingleWordFunctionals)
    ensures r.Some? && |argv| == 2 ==> r.value == argv[1]
    ensures r.Some? ==> argv[1] <= r.value
  {
    if |argv| > 2 && argv[1] == "LIBXC" then
      JoinedStartsWithFirst(argv[1..]);
      Some(Joined(argv[1..]))
    else if |argv| != 2 then None
    else if argv[1] in SingleWordFunctionals then Some(argv[1])
    else None
  }

  lemma {:induction false} JoinedStartsWithFirst(ws: seq<string>)
    requires ws != []
    ensures ws[0] <= Joined(ws)
  {
  }

  /**
   * Whatever `set` stores splits back into the words it was given, when
   * those are words (as the command interpreter passes them).
   */
  lemma SetValueTokens(argv: seq<string>)
    requires |argv| >= 2 && SetValue(argv).Some?
    requires forall i :: 1 <= i < |argv| ==> IsWord(argv[i])
    ensures Tokens(SetValue(argv).value) == argv[1..]
  {
    if |argv| == 2 {
      TokensOfWord(argv[1]);
    } else {
      TokensOfJoined(argv[1..]);
    }
  }

  /** A stored LIBXC description starts with the word LIBXC, whatever the other words are. */
  lemma LibxcValueFirstToken(argv: seq<string>)
    requires |argv| > 2 && argv[1] == "LIBXC"
    ensures SetValue(argv).Some?
    ensures Tokens(SetValue(argv).value) != [] && Tokens(SetValue(argv).value)[0] == "LIBXC"
  {
    assert argv[1..][1..] == argv[2..];
    assert Joined(argv[1..]) == "LIBXC" + " " + Joined(argv[2..]);
    FirstTokenAfterWord("LIBXC", Joined(argv[2..]));
  }

  /** `n` spaces. */
  function Spaces(n: nat): (r: string)
    ensures |r| == n && forall i :: 0 <= i < n ==> r[i] == ' '
  {
    if n == 0 then [] else Spaces(n - 1) + " "
  }

  /** `setw(w)` with `ios::left`: pad on the right, never truncate. */
  function LeftJustified(t: string, w: nat): (r: string)
    ensures |r| == if |t| < w then w else |t|
    ensures r[..|t|] == t && forall i :: |t| <= i < |r| ==> r[i] == ' '
  {
    if |t| < w then t + Spaces(w - |t|) else t
  }

  /** `setw(w)` with `ios::right`: pad on the left, never truncate. */
  function RightJustified(t: string, w: nat): (r: string)
    ensures |r| == if |t| < w then w else |t|
    ensures r[|r| - |t|..] == t && forall i :: 0 <= i < |r| - |t| ==> r[i] == ' '
  {
    if |t| < w then Spaces(w - |t|) + t else t
  }

  /**
   * The line `print` produces: the name in a left-justified field of 50,
   * " = ", then the value in a right-justified field of 50.
   */
  function FormatVar(name: string, value: string): (r: string)
    ensures |r| >= 53 + |value|
    ensures |name| <= 50 && |value| <= 50 ==> |r| == 103
    ensures |name| <= 50 ==> r[..|name|] == name && r[50..53] == " = "
    ensures |name| <= 50 ==> forall i :: |name| <= i < 50 ==> r[i] == ' '
    ensures r[|r| - |value|..] == value
  {
    var l := LeftJustified(name, 50);
    var v := RightJustified(value, 50);
    assert (l + " = " + v)[|l + " = " + v| - |value|..] == v[|v| - |value|..];
    l + " = " + v
  }

  /** The `xc` variable, bound to one sample's control record. */
  class Xc {
    const s: Control

    /** A new `xc` variable resets the sample's functional to LDA. */
    constructor(sample: Control)
      modifies sample
      ensures s == sample && sample.xc == "LDA" && sample.alphaPBE0 == old(sample.alphaPBE0)
    {
      s := sample;
      sample.xc := "LDA";
    }

    /** The keyword the variable is registered under: one word, so `set xc` can name it. */
    function Name(): (r: string)
      ensures r == "xc" && IsWord(r)
    {
      "xc"
    }

    /**
     * `set(argc, argv)`: 0 and the new value stored when SetValue accepts
     * `argv`; 1 and nothing changed otherwise. `argv[1]` is read first, so
     * at least two words are needed.
     */
    method Set(argv: seq<string>) returns (status: int)
      requires |argv| >= 2
      modifies s
      ensures status == 0 || status == 1
      ensures status == 0 <==> SetValue(argv).Some?
      ensures status == 0 ==> s.xc == SetValue(argv).value
      ensures status == 1 ==> s.xc == old(s.xc)
      ensures s.alphaPBE0 == old(s.alphaPBE0)
    {
      var v := argv[1];
      if |argv| > 2 && v == "LIBXC" {
        var n := 2;
        while n < |argv|
          invariant 2 <= n <= |argv|
          invariant v == Joined(argv[1..n])
          modifies {}
        {
          JoinedSnoc(argv[1..n], argv[n]);
          assert argv[1..n + 1] == argv[1..n] + [argv[n]];
          v := v + " " + argv[n];
          n := n + 1;
        }
        assert argv[1..n] == argv[1..];
      } else if |argv| != 2 {
        return 1;
      } else {
        v := argv[1];
        if !(v == "LDA" || v == "VWN" || v == "PBE" || v == "BLYP" || v == "HF" || v == "PBE0" || v == "B3LYP") {
          return 1;
        }
      }
      s.xc := v;
      return 0;
    }

    /** `print()`: the formatted line for the current value. */
    function Print(): (r: string)
      reads this, s
      ensures r == FormatVar(Name(), s.xc)
      ensures |s.xc| <= 50 ==> |r| == 103
      ensures r[..2] == "xc" && r[50..53] == " = " && r[|r| - |s.xc|..] == s.xc
    {
      FormatVar(Name(), s.xc)
    }
  }
}
