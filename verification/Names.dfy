/** Kubernetes names: the normalising pipeline of `generateDNSName`, and deployment names. */
module Names {
  import opened Common

  predicate Alnum(c: char) {
    'a' <= c <= 'z' || '0' <= c <= '9'
  }

  /** Lower case, as far as the pipeline can tell: two non-ASCII letters have an ASCII lower case. */
  function LowerChar(c: char): char {
    if 'A' <= c <= 'Z' then (c as int + 32) as char
    else if c == '\U{212A}' then 'k'
    else if c == '\U{130}' then 'i'
    else c
  }

  function Lower(s: string): (r: string)
    ensures |r| == |s|
  {
    if s == "" then "" else [LowerChar(s[0])] + Lower(s[1..])
  }

  /** Every maximal run of characters outside [a-z0-9-] becomes one hyphen; `inRun` is inside one. */
  function Squash(s: string, inRun: bool): string {
    if s == "" then ""
    else if Alnum(s[0]) || s[0] == '-' then [s[0]] + Squash(s[1..], false)
    else (if inRun then "" else "-") + Squash(s[1..], true)
  }

  function TrimLeft(s: string): string {
    if s != "" && s[0] == '-' then TrimLeft(s[1..]) else s
  }

  function TrimRight(s: string): string {
    if s != "" && s[|s| - 1] == '-' then TrimRight(s[..|s| - 1]) else s
  }

  function Trim(s: string): string {
    TrimRight(TrimLeft(s))
  }

  /** Does the string contain "--"? */
  predicate HasDouble(s: string) {
    |s| >= 2 && ((s[0] == '-' && s[1] == '-') || HasDouble(s[1..]))
  }

  /** Replace "--" by "-", scanning from the left without overlap. */
  function Halve(s: string): (r: string)
    ensures |r| <= |s|
  {
    if s == "" then ""
    else if |s| >= 2 && s[0] == '-' && s[1] == '-' then "-" + Halve(s[2..])
    else [s[0]] + Halve(s[1..])
  }

  function Cut(s: string): string {
    if |s| > 63 then s[..63] else s
  }

  // ---------- the simple specification ----------

  /** The longest prefix of letters and digits. */
  function Word(s: string): (n: nat)
    ensures n <= |s| && (forall i :: 0 <= i < n ==> Alnum(s[i])) && (n < |s| ==> !Alnum(s[n]))
  {
    if s == "" || !Alnum(s[0]) then 0 else 1 + Word(s[1..])
  }

  /** The maximal runs of [a-z0-9], in order. */
  function Words(s: string): seq<string>
    decreases |s|
  {
    if s == "" then []
    else if !Alnum(s[0]) then Words(s[1..])
    else [s[..Word(s)]] + Words(s[Word(s)..])
  }

  /** The words with single hyphens between them. */
  function Join(words: seq<string>): string {
    if words == [] then ""
    else if |words| == 1 then words[0]
    else words[0] + "-" + Join(words[1..])
  }

  function Joined(name: string): string {
    Join(Words(Lower(name)))
  }

  /** What `generateDNSName` promises. */
  function DNSName(name: string): string {
    Cut(Joined(name))
  }

  // ---------- one normal form that no step of the pipeline changes ----------

  datatype Position = Start | InWord | Gap

  /** The join of the words, read off in one pass. */
  function Norm(s: string, p: Position): string {
    if s == "" then ""
    else if Alnum(s[0]) then (if p.Gap? then "-" else "") + [s[0]] + Norm(s[1..], InWord)
    else Norm(s[1..], if p.Start? then Start else Gap)
  }

  lemma {:induction false} NormWord(s: string, n: nat)
    requires n <= Word(s)
    ensures Norm(s, InWord) == s[..n] + Norm(s[n..], InWord)
    decreases n
  {
    if n > 0 {
      NormWord(s[1..], n - 1);
      assert s[1..][n - 1..] == s[n..];
      assert s[..n] == [s[0]] + s[1..][..n - 1];
    } else {
      assert s[0..] == s;
    }
  }

  /** A letter or digit after no word, or after a gap. */
  lemma NormStart(s: string)
    requires s != "" && Alnum(s[0])
    ensures Norm(s, Start) == Norm(s, InWord)
    ensures Norm(s, Gap) == "-" + Norm(s, InWord)
  {
    var rest := Norm(s[1..], InWord);
    assert "" + [s[0]] + rest == [s[0]] + rest && "-" + [s[0]] + rest == "-" + ("" + [s[0]] + rest);
  }

  lemma JoinFirstWord(s: string)
    requires s != "" && Alnum(s[0])
    ensures var rest := Words(s[Word(s)..]);
            Words(s) != [] && Join(Words(s)) == s[..Word(s)] + if rest == [] then "" else "-" + Join(rest)
  {
    assert Words(s) == [s[..Word(s)]] + Words(s[Word(s)..]);
    JoinCons(s[..Word(s)], Words(s[Word(s)..]));
  }

  lemma JoinCons(w: string, words: seq<string>)
    ensures Join([w] + words) == w + if words == [] then "" else "-" + Join(words)
  {
    assert ([w] + words)[1..] == words;
  }

  /** Norm is the join of the words, with a leading hyphen if one is owed. */
  lemma {:induction false} NormIsJoin(s: string)
    ensures Norm(s, Start) == Join(Words(s))
    ensures Norm(s, Gap) == if Words(s) == [] then "" else "-" + Join(Words(s))
    decreases |s|
  {
    if s != "" && !Alnum(s[0]) {
      NormIsJoin(s[1..]);
    } else if s != "" {
      var rest := s[Word(s)..];
      NormStart(s);
      NormWord(s, Word(s));
      JoinFirstWord(s);
      if rest != "" {
        // the word ended, so what follows does not begin with a letter or digit
        NormIsJoin(rest[1..]);
      }
    }
  }

  lemma {:induction false} NormSquash(s: string, inRun: bool, p: Position)
    requires inRun ==> !p.InWord?
    ensures Norm(Squash(s, inRun), p) == Norm(s, p)
    decreases |s|
  {
    if s != "" {
      if Alnum(s[0]) || s[0] == '-' {
        NormSquash(s[1..], false, if Alnum(s[0]) then InWord else if p.Start? then Start else Gap);
        assert ([s[0]] + Squash(s[1..], false))[1..] == Squash(s[1..], false);
      } else {
        NormSquash(s[1..], true, if p.Start? then Start else Gap);
        assert ("-" + Squash(s[1..], true))[1..] == Squash(s[1..], true);
        assert "" + Squash(s[1..], true) == Squash(s[1..], true);
      }
    }
  }

  lemma {:induction false} NormHalve(s: string, p: Position)
    ensures Norm(Halve(s), p) == Norm(s, p)
    decreases |s|
  {
    if |s| >= 2 && s[0] == '-' && s[1] == '-' {
      var q := if p.Start? then Start else Gap;
      NormHalve(s[2..], q);
      assert s[1..][1..] == s[2..];
      assert ("-" + Halve(s[2..]))[1..] == Halve(s[2..]);
      assert Norm(s[1..], q) == Norm(s[2..], q);
    } else if s != "" {
      NormHalve(s[1..], if Alnum(s[0]) then InWord else if p.Start? then Start else Gap);
      assert ([s[0]] + Halve(s[1..]))[1..] == Halve(s[1..]);
    }
  }

  lemma {:induction false} NormTrimLeft(s: string)
    ensures Norm(TrimLeft(s), Start) == Norm(s, Start)
    decreases |s|
  {
    if s != "" && s[0] == '-' {
      NormTrimLeft(s[1..]);
    }
  }

  lemma {:induction false} NormSnoc(s: string, p: Position)
    ensures Norm(s + "-", p) == Norm(s, p)
    decreases |s|
  {
    if s == "" {
      assert s + "-" == "-";
      assert "-"[1..] == "";
    } else {
      assert (s + "-")[1..] == s[1..] + "-";
      NormSnoc(s[1..], if Alnum(s[0]) then InWord else if p.Start? then Start else Gap);
    }
  }

  lemma {:induction false} NormTrimRight(s: string, p: Position)
    ensures Norm(TrimRight(s), p) == Norm(s, p)
    decreases |s|
  {
    if s != "" && s[|s| - 1] == '-' {
      NormTrimRight(s[..|s| - 1], p);
      NormSnoc(s[..|s| - 1], p);
      assert s == s[..|s| - 1] + "-";
    }
  }

  /** Letters, digits and hyphens only. */
  predicate Allowed(s: string) {
    forall i :: 0 <= i < |s| ==> Alnum(s[i]) || s[i] == '-'
  }

  predicate Trimmed(s: string) {
    s == "" || (s[0] != '-' && s[|s| - 1] != '-')
  }

  /** Already in normal form: hyphens are single and inside, or one stands before a word. */
  lemma {:induction false} NormCleanWord(s: string)
    requires Allowed(s) && !HasDouble(s) && (s != "" ==> s[|s| - 1] != '-')
    ensures Norm(s, InWord) == s
    decreases |s|
  {
    if s != "" {
      var rest := s[1..];
      assert Alnum(s[0]) || s[0] == '-';
      assert Allowed(rest) && !HasDouble(rest);
      assert rest != "" ==> rest[|rest| - 1] == s[|s| - 1] && rest[0] == s[1];
      assert [s[0]] + rest == s && "" + [s[0]] + rest == s;
      NormCleanWord(rest);
      if s[0] == '-' {
        assert Alnum(rest[0]);
        NormStart(rest);
      }
    }
  }

  lemma NormClean(s: string)
    requires Allowed(s) && !HasDouble(s) && Trimmed(s)
    ensures Norm(s, Start) == s
  {
    NormCleanWord(s);
    if s != "" {
      assert Alnum(s[0]);
      NormStart(s);
    }
  }

  lemma {:induction false} SquashAllowed(s: string, inRun: bool)
    ensures Allowed(Squash(s, inRun))
    decreases |s|
  {
    if s != "" {
      SquashAllowed(s[1..], !(Alnum(s[0]) || s[0] == '-'));
    }
  }

  lemma {:induction false} TrimFacts(s: string)
    requires Allowed(s)
    ensures Allowed(TrimLeft(s)) && (TrimLeft(s) == "" || TrimLeft(s)[0] != '-')
    ensures Allowed(TrimRight(s)) && (TrimRight(s) == "" || TrimRight(s)[|TrimRight(s)| - 1] != '-')
    ensures s != "" && s[0] != '-' ==> TrimRight(s) != "" && TrimRight(s)[0] == s[0]
    ensures |TrimRight(s)| <= |s| && |TrimLeft(s)| <= |s|
    decreases |s|
  {
    if s != "" {
      if s[0] == '-' { TrimFacts(s[1..]); }
      if s[|s| - 1] == '-' { TrimFacts(s[..|s| - 1]); }
    }
  }

  lemma {:induction false} HalveAllowed(s: string)
    requires Allowed(s)
    ensures Allowed(Halve(s)) && (s == "" <==> Halve(s) == "")
    decreases |s|
  {
    if |s| >= 2 && s[0] == '-' && s[1] == '-' {
      HalveAllowed(s[2..]);
    } else if s != "" {
      HalveAllowed(s[1..]);
      assert Alnum(s[0]) || s[0] == '-';
    }
  }

  /** A pass keeps the characters at both ends. */
  lemma {:induction false} HalveEnds(s: string)
    requires s != ""
    ensures Halve(s) != "" && Halve(s)[0] == s[0] && Halve(s)[|Halve(s)| - 1] == s[|s| - 1]
    decreases |s|
  {
    if |s| >= 2 && s[0] == '-' && s[1] == '-' {
      if s[2..] != "" {
        HalveEnds(s[2..]);
        assert s[2..][|s[2..]| - 1] == s[|s| - 1];
      }
    } else if s[1..] != "" {
      HalveEnds(s[1..]);
      assert s[1..][|s[1..]| - 1] == s[|s| - 1];
    }
  }

  lemma {:induction false} HalveShrinks(s: string)
    requires HasDouble(s)
    ensures |Halve(s)| < |s|
    decreases |s|
  {
    if !(s[0] == '-' && s[1] == '-') {
      HalveShrinks(s[1..]);
    }
  }

  // ---------- the loop ----------

  /** The number of hyphens the string starts with. */
  function Lead(s: string): (n: nat)
    ensures n <= |s| && (forall i :: 0 <= i < n ==> s[i] == '-') && (n < |s| ==> s[n] != '-')
  {
    if s != "" && s[0] == '-' then 1 + Lead(s[1..]) else 0
  }

  /** The longest run of hyphens. */
  function Longest(s: string): (n: nat)
    ensures n <= |s|
  {
    if s == "" then 0
    else Max(Lead(s), Longest(s[1..]))
  }

  function HalfUp(n: nat): nat {
    (n + 1) / 2
  }

  /** The least number of halvings, rounding up, that bring `k` to at most 1: log2, rounded up. */
  function CeilLog2(k: nat): nat {
    if k <= 1 then 0 else 1 + CeilLog2(HalfUp(k))
  }

  lemma {:induction false} CeilLog2Exact(k: nat)
    requires k >= 1
    ensures k <= Pow2(CeilLog2(k)) && (k > 1 ==> Pow2(CeilLog2(k) - 1) < k)
    decreases k
  {
    if k > 1 {
      CeilLog2Exact(HalfUp(k));
    }
  }

  /** Every run of hyphens shrinks to one hyphen, in one pass. */
  function OnePass(s: string): string {
    if s == "" then ""
    else if |s| >= 2 && s[0] == '-' && s[1] == '-' then OnePass(s[1..])
    else [s[0]] + OnePass(s[1..])
  }

  lemma {:induction false} OnePassHalve(s: string)
    ensures OnePass(Halve(s)) == OnePass(s)
    decreases |s|
  {
    if |s| >= 2 && s[0] == '-' && s[1] == '-' {
      var rest := Halve(s[2..]);
      OnePassHalve(s[2..]);
      assert ("-" + rest)[1..] == rest;
      assert s[1..][1..] == s[2..];
      if s[2..] != "" {
        HalveEnds(s[2..]);
        assert s[1..][1] == s[2];
      }
    } else if s != "" {
      OnePassHalve(s[1..]);
      assert ([s[0]] + Halve(s[1..]))[1..] == Halve(s[1..]);
      if s[1..] != "" { HalveEnds(s[1..]); }
    }
  }

  lemma {:induction false} OnePassFixed(s: string)
    requires !HasDouble(s)
    ensures OnePass(s) == s
    decreases |s|
  {
    if s != "" {
      OnePassFixed(s[1..]);
      assert [s[0]] + s[1..] == s;
    }
  }

  lemma {:induction false} LeadHalve(s: string)
    ensures Lead(Halve(s)) == HalfUp(Lead(s))
    decreases |s|
  {
    if |s| >= 2 && s[0] == '-' && s[1] == '-' {
      LeadHalve(s[2..]);
      assert ("-" + Halve(s[2..]))[1..] == Halve(s[2..]);
      assert s[1..][1..] == s[2..];
    } else if s != "" && s[0] == '-' {
      assert ([s[0]] + Halve(s[1..]))[1..] == Halve(s[1..]);
      LeadHalve(s[1..]);
    }
  }

  /** One pass takes the longest run of k hyphens to one of ceil(k/2). */
  lemma {:induction false} LongestHalve(s: string)
    ensures Longest(Halve(s)) == HalfUp(Longest(s))
    decreases |s|
  {
    if s != "" {
      LeadHalve(s);
      if |s| >= 2 && s[0] == '-' && s[1] == '-' {
        LongestHalve(s[2..]);
        assert ("-" + Halve(s[2..]))[1..] == Halve(s[2..]);
        assert s[1..][1..] == s[2..];
      } else {
        LongestHalve(s[1..]);
        assert ([s[0]] + Halve(s[1..]))[1..] == Halve(s[1..]);
      }
    }
  }

  lemma {:induction false} LongestDouble(s: string)
    ensures HasDouble(s) <==> Longest(s) >= 2
    decreases |s|
  {
    if s != "" {
      LongestDouble(s[1..]);
    }
  }

  /** What one pass of the loop does. */
  lemma Pass(s: string)
    requires HasDouble(s)
    ensures var r := Halve(s);
            && |r| < |s| && r != "" && r[0] == s[0] && r[|r| - 1] == s[|s| - 1]
            && OnePass(r) == OnePass(s) && Norm(r, Start) == Norm(s, Start)
            && (Allowed(s) ==> Allowed(r))
            && CeilLog2(Longest(s)) == 1 + CeilLog2(Longest(r))
  {
    OnePassHalve(s);
    NormHalve(s, Start);
    LongestHalve(s);
    LongestDouble(s);
    HalveShrinks(s);
    HalveEnds(s);
    if Allowed(s) { HalveAllowed(s); }
  }

  /**
    The collapsing loop: it ends after exactly ceil(log2 K) passes for a longest run of K hyphens,
    and its result is that of collapsing every run at once.
   */
  method CollapseHyphens(s: string) returns (r: string, passes: nat)
    ensures r == OnePass(s) && !HasDouble(r)
    ensures passes == CeilLog2(Longest(s))
    ensures Norm(r, Start) == Norm(s, Start)
    ensures Allowed(s) ==> Allowed(r)
    ensures s != "" ==> r != "" && r[0] == s[0] && r[|r| - 1] == s[|s| - 1]
  {
    r, passes := s, 0;
    while HasDouble(r)
      invariant OnePass(r) == OnePass(s) && Norm(r, Start) == Norm(s, Start)
      invariant passes + CeilLog2(Longest(r)) == CeilLog2(Longest(s))
      invariant Allowed(s) ==> Allowed(r)
      invariant s != "" ==> r != "" && r[0] == s[0] && r[|r| - 1] == s[|s| - 1]
      decreases |r|
    {
      Pass(r);
      r := Halve(r);
      passes := passes + 1;
    }
    OnePassFixed(r);
    LongestDouble(r);
  }
}
