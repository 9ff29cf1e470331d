/** `generateDNSName` and `generateDeploymentName`: what they return, and when it is a DNS label. */
module NameTheorems {
  import opened Names

  /** The pipeline of the code; its result is the join of the words, cut after 63 characters. */
  method GenerateDNSName(name: string) returns (r: string)
    ensures r == DNSName(name)
  {
    r := Lower(name);
    SquashAllowed(r, false);
    NormSquash(r, false, Start);
    r := Squash(r, false);
    TrimFacts(r);
    NormTrimLeft(r);
    TrimFacts(TrimLeft(r));
    NormTrimRight(TrimLeft(r), Start);
    r := Trim(r);
    var passes;
    r, passes := CollapseHyphens(r);
    NormClean(r);
    NormIsJoin(Lower(name));
    if |r| > 63 {
      r := r[..63];
    }
  }

  // ---------- what the helpers do to each character ----------

  lemma AlnumExactly(c: char)
    ensures Alnum(c) <==> c in "abcdefghijklmnopqrstuvwxyz0123456789"
  {
    var all := "abcdefghijklmnopqrstuvwxyz0123456789";
    if 'a' <= c <= 'z' {
      assert all[c as int - 'a' as int] == c;
    } else if '0' <= c <= '9' {
      assert all[26 + c as int - '0' as int] == c;
    } else {
      forall i | 0 <= i < |all| ensures all[i] != c {
      }
    }
  }

  /** Upper-case ASCII letters get their lower case, all other ASCII characters stay; two others become ASCII. */
  lemma {:induction false} LowerAt(s: string, k: nat)
    requires k < |s|
    ensures 'A' <= s[k] <= 'Z' ==> Lower(s)[k] as int == s[k] as int + 32
    ensures s[k] as int < 128 && !('A' <= s[k] <= 'Z') ==> Lower(s)[k] == s[k]
    ensures s[k] == '\U{212A}' ==> Lower(s)[k] == 'k'
    ensures s[k] == '\U{130}' ==> Lower(s)[k] == 'i'
    decreases k
  {
    if k > 0 { LowerAt(s[1..], k - 1); }
  }

  /** '/', ':' and '_' become hyphens, upper-case ASCII letters their lower case, other ASCII stays. */
  lemma {:induction false} SanitizeAt(image: string, k: nat)
    requires k < |image|
    ensures image[k] == '/' || image[k] == ':' || image[k] == '_' ==> Sanitize(image)[k] == '-'
    ensures 'A' <= image[k] <= 'Z' ==> Sanitize(image)[k] as int == image[k] as int + 32
    ensures image[k] as int < 128 && !('A' <= image[k] <= 'Z') && image[k] !in "/:_" ==>
              Sanitize(image)[k] == image[k]
    decreases k
  {
    if k > 0 { SanitizeAt(image[1..], k - 1); }
  }

  /** The letters and digits of a string, in order. */
  function Letters(s: string): string {
    if s == "" then "" else (if Alnum(s[0]) then [s[0]] else "") + Letters(s[1..])
  }

  lemma {:induction false} NormLetters(s: string, p: Position)
    ensures Letters(Norm(s, p)) == Letters(s)
    decreases |s|
  {
    if s != "" {
      var q := if Alnum(s[0]) then InWord else if p.Start? then Start else Gap;
      var rest := Norm(s[1..], q);
      NormLetters(s[1..], q);
      if Alnum(s[0]) {
        assert ([s[0]] + rest)[1..] == rest;
        assert "" + [s[0]] + rest == [s[0]] + rest;
        assert "-" + [s[0]] + rest == "-" + ([s[0]] + rest) && ("-" + ([s[0]] + rest))[1..] == [s[0]] + rest;
      }
    }
  }

  /** Normalising drops no letter or digit, before the cut. */
  lemma JoinedLetters(name: string)
    ensures Letters(Joined(name)) == Letters(Lower(name))
  {
    NormIsJoin(Lower(name));
    NormLetters(Lower(name), Start);
  }

  // ---------- shape of the joined form ----------

  predicate ProperWord(w: string) {
    w != "" && forall i :: 0 <= i < |w| ==> Alnum(w[i])
  }

  lemma {:induction false} WordsProper(s: string)
    ensures forall i :: 0 <= i < |Words(s)| ==> ProperWord(Words(s)[i])
    decreases |s|
  {
    if s != "" {
      WordsProper(if Alnum(s[0]) then s[Word(s)..] else s[1..]);
    }
  }

  /** Hyphens are single and inside; this is what makes a joined form its own normal form. */
  predicate Clean(s: string) {
    Allowed(s) && Trimmed(s) && !HasDouble(s)
  }

  lemma {:induction false} NoDoubleWord(w: string, rest: string)
    requires forall i :: 0 <= i < |w| ==> Alnum(w[i])
    requires !HasDouble(rest)
    ensures !HasDouble(w + rest)
    decreases |w|
  {
    if w == "" {
      assert w + rest == rest;
    } else {
      NoDoubleWord(w[1..], rest);
      assert (w + rest)[1..] == w[1..] + rest;
    }
  }

  lemma {:induction false} JoinClean(words: seq<string>)
    requires forall i :: 0 <= i < |words| ==> ProperWord(words[i])
    ensures Clean(Join(words)) && (Join(words) == "" <==> words == [])
    decreases |words|
  {
    if |words| >= 1 {
      JoinClean(words[1..]);
      assert ProperWord(words[0]);
      if |words| == 1 {
        assert words[0] + "" == words[0];
        NoDoubleWord(words[0], "");
      } else {
        var rest := Join(words[1..]);
        assert ("-" + rest)[1..] == rest;
        assert !HasDouble("-" + rest);
        NoDoubleWord(words[0], "-" + rest);
        assert words[0] + "-" + rest == words[0] + ("-" + rest);
      }
    }
  }

  lemma JoinedClean(name: string)
    ensures Clean(Joined(name))
  {
    WordsProper(Lower(name));
    JoinClean(Words(Lower(name)));
  }

  lemma {:induction false} LowerAllowed(s: string)
    requires Allowed(s)
    ensures Lower(s) == s
    decreases |s|
  {
    if s != "" {
      assert Alnum(s[0]) || s[0] == '-';
      LowerAllowed(s[1..]);
      assert [s[0]] + s[1..] == s;
    }
  }

  /** A clean string is its own joined form. */
  lemma CleanFixed(s: string)
    requires Clean(s)
    ensures Joined(s) == s && DNSName(s) == Cut(s)
  {
    LowerAllowed(s);
    NormIsJoin(s);
    NormClean(s);
  }

  lemma {:induction false} PrefixSingle(s: string, n: nat)
    requires !HasDouble(s) && n <= |s|
    ensures !HasDouble(s[..n])
    decreases |s|
  {
    if n > 0 {
      PrefixSingle(s[1..], n - 1);
      assert s[..n][1..] == s[1..][..n - 1];
    }
  }

  // ---------- DNS labels ----------

  /** A label of section 2.3.1 of RFC 1035 as relaxed by section 2.1 of RFC 1123, in lower case. */
  predicate ValidLabel(s: string) {
    1 <= |s| <= 63 && Allowed(s) && s[0] != '-' && s[|s| - 1] != '-'
  }

  /** The name is usable exactly if something is left of it and the cut does not fall behind a hyphen. */
  lemma LabelIff(name: string)
    ensures ValidLabel(DNSName(name)) <==>
            Joined(name) != "" && (|Joined(name)| <= 63 || Joined(name)[62] != '-')
  {
    JoinedClean(name);
  }

  /** Normalising twice changes nothing exactly if the name is empty or a label; thrice never does. */
  lemma FixedPoint(name: string)
    ensures DNSName(DNSName(name)) == DNSName(name) <==> DNSName(name) == "" || ValidLabel(DNSName(name))
    ensures DNSName(DNSName(DNSName(name))) == DNSName(DNSName(name))
  {
    JoinedClean(name);
    var j, d := Joined(name), DNSName(name);
    if d == "" || d[|d| - 1] != '-' {
      if |j| > 63 { PrefixSingle(j, 63); }
      CleanFixed(d);
    } else {
      var w := d[..62];
      assert d == w + "-";
      CutHyphen(j);
      assert w == j[..62];
      NormSnoc(w, Start);
      CleanFixed(w);
      NormIsJoin(w);
      LowerAllowed(d);
      NormIsJoin(d);
      LowerAllowed(w);
      assert DNSName(d) == w;
    }
  }

  /** A cut behind a hyphen leaves 62 clean characters before it. */
  lemma CutHyphen(j: string)
    requires Clean(j) && |j| > 63 && j[62] == '-'
    ensures Clean(j[..62])
  {
    PrefixSingle(j, 62);
    if j[61] == '-' {
      DoubleAt(j, 61);
    }
  }

  lemma {:induction false} DoubleAt(s: string, i: nat)
    requires i + 1 < |s| && s[i] == '-' && s[i + 1] == '-'
    ensures HasDouble(s)
    decreases i
  {
    if i > 0 { DoubleAt(s[1..], i - 1); }
  }

  function Repeat(c: char, n: nat): (s: string)
    ensures |s| == n && forall i :: 0 <= i < n ==> s[i] == c
  {
    if n == 0 then "" else [c] + Repeat(c, n - 1)
  }

  /** The cut can leave a trailing hyphen: 62 letters, a hyphen and one more letter. */
  lemma TrailingHyphenPossible()
    ensures exists name :: DNSName(name) != "" && !ValidLabel(DNSName(name))
  {
    var head := Repeat('a', 62);
    var name := head + "-b";
    assert !HasDouble("-b") by {
      assert !HasDouble("b");
      assert "-b"[1..] == "b";
    }
    NoDoubleWord(head, "-b");
    assert Allowed(name);
    CleanFixed(name);
    assert DNSName(name)[62] == '-';
  }

  // ---------- deployment names ----------

  function SanitizeChar(c: char): char {
    var l := LowerChar(c);
    if l == '/' || l == ':' || l == '_' then '-' else l
  }

  /** `sanitizeImageName`: lower case, then '/', ':' and '_' each become a hyphen. */
  function Sanitize(image: string): (r: string)
    ensures |r| == |image|
  {
    if image == "" then "" else [SanitizeChar(image[0])] + Sanitize(image[1..])
  }

  function DeploymentName(image: string, dns: string): string {
    Trim(Cut("worker-" + dns + "-" + Sanitize(image)))
  }

  lemma {:induction false} TrimRightKeeps(s: string)
    ensures TrimRight(s) == "" || TrimRight(s)[|TrimRight(s)| - 1] != '-'
    ensures |TrimRight(s)| <= |s| && TrimRight(s) == s[..|TrimRight(s)|]
    ensures forall i :: |TrimRight(s)| <= i < |s| ==> s[i] == '-'
    decreases |s|
  {
    if s != "" && s[|s| - 1] == '-' {
      TrimRightKeeps(s[..|s| - 1]);
    }
  }

  /**
    A deployment name is the full name cut after 63 characters, less the hyphens at its end: it
    begins with "worker", has at most 63 characters and does not end with a hyphen.
   */
  lemma DeploymentNameShape(image: string, dns: string)
    ensures var r, full := DeploymentName(image, dns), "worker-" + dns + "-" + Sanitize(image);
            && 6 <= |r| <= 63 && r <= full && r[..6] == "worker" && r[|r| - 1] != '-'
            && (forall i :: |r| <= i < |full| && i < 63 ==> full[i] == '-')
  {
    var full := "worker-" + dns + "-" + Sanitize(image);
    assert full[..6] == "worker" && full[0] == 'w' && full[5] == 'r';
    CutAndTrimmed(full);
  }

  lemma CutAndTrimmed(full: string)
    requires |full| >= 6 && full[0] != '-' && full[5] != '-'
    ensures var r := Trim(Cut(full));
            && 6 <= |r| <= 63 && r <= full && r[|r| - 1] != '-'
            && (forall i :: |r| <= i < |full| && i < 63 ==> full[i] == '-')
  {
    var cut := Cut(full);
    assert cut[0] == full[0] && cut[5] == full[5];
    assert TrimLeft(cut) == cut;
    TrimRightKeeps(cut);
  }

  function Prefix(dns: string): string {
    "worker-" + dns + "-"
  }

  /** What a deployment name keeps of the image: the characters there is room for, less hyphens at the end. */
  function ImagePart(image: string, dns: string): string
    requires |dns| < 55
  {
    var s := Sanitize(image);
    TrimRight(if |s| > 55 - |dns| then s[..55 - |dns|] else s)
  }

  lemma {:induction false} TrimRightConcat(p: string, s: string)
    ensures TrimRight(p + s) == if TrimRight(s) == "" then TrimRight(p) else p + TrimRight(s)
    decreases |s|
  {
    if s == "" {
      assert p + s == p;
    } else if s[|s| - 1] == '-' {
      assert (p + s)[..|p + s| - 1] == p + s[..|s| - 1];
      TrimRightConcat(p, s[..|s| - 1]);
    }
  }

  /** The name in two parts: the namespace's, and what is kept of the image. */
  lemma DeploymentNameParts(image: string, dns: string)
    ensures |dns| < 55 ==>
              DeploymentName(image, dns) ==
                if ImagePart(image, dns) == "" then TrimRight(Prefix(dns)) else Prefix(dns) + ImagePart(image, dns)
    ensures |dns| >= 55 ==> DeploymentName(image, dns) == TrimRight(Prefix(dns)[..63])
  {
    var full := "worker-" + dns + "-" + Sanitize(image);
    assert full == Prefix(dns) + Sanitize(image);
    assert Prefix(dns)[0] == 'w';
    assert Cut(full)[0] == 'w';
    assert TrimLeft(Cut(full)) == Cut(full);
    if |dns| < 55 {
      var n := 55 - |dns|;
      var first := if |Sanitize(image)| > n then Sanitize(image)[..n] else Sanitize(image);
      assert Cut(full) == Prefix(dns) + first;
      TrimRightConcat(Prefix(dns), first);
    } else {
      assert Cut(full) == Prefix(dns)[..63];
    }
  }

  /**
    Two images get one deployment name in a namespace exactly if the first 55 - |dns| characters of
    the sanitised images agree up to hyphens at the end; with a DNS name of 55 characters or more
    all images do.
   */
  lemma SameNameIff(a: string, b: string, dns: string)
    ensures DeploymentName(a, dns) == DeploymentName(b, dns) <==> |dns| >= 55 || ImagePart(a, dns) == ImagePart(b, dns)
  {
    DeploymentNameParts(a, dns);
    DeploymentNameParts(b, dns);
    TrimRightKeeps(Prefix(dns));
    if |dns| < 55 && (ImagePart(a, dns) == "" || ImagePart(b, dns) == "") {
      assert |TrimRight(Prefix(dns))| < |Prefix(dns)|;
    }
    if |dns| < 55 && ImagePart(a, dns) != "" && ImagePart(b, dns) != ""
        && DeploymentName(a, dns) == DeploymentName(b, dns) {
      assert (Prefix(dns) + ImagePart(a, dns))[|Prefix(dns)|..] == ImagePart(a, dns);
      assert (Prefix(dns) + ImagePart(b, dns))[|Prefix(dns)|..] == ImagePart(b, dns);
    }
  }

  /** Two namespaces whose DNS names agree on 56 characters give every image one name. */
  lemma LongNamesAgree(image: string, x: string, y: string)
    requires |x| >= 56 && |y| >= 56 && x[..56] == y[..56]
    ensures DeploymentName(image, x) == DeploymentName(image, y)
  {
    DeploymentNameParts(image, x);
    DeploymentNameParts(image, y);
    assert Prefix(x)[..63] == "worker-" + x[..56] && Prefix(y)[..63] == "worker-" + y[..56];
  }

  lemma {:induction false} SanitizeConcat(y: string, s: string)
    ensures Sanitize(y + s) == Sanitize(y) + Sanitize(s)
    decreases |y|
  {
    if y == "" {
      assert y + s == s;
    } else {
      SanitizeConcat(y[1..], s);
      var rest := Sanitize(y[1..]);
      assert (y + s)[1..] == y[1..] + s;
      assert [SanitizeChar(y[0])] + (rest + Sanitize(s)) == ([SanitizeChar(y[0])] + rest) + Sanitize(s);
    }
  }

  lemma {:induction false} SanitizeAllowed(y: string)
    requires Allowed(y)
    ensures Sanitize(y) == y
    decreases |y|
  {
    if y != "" {
      assert Alnum(y[0]) || y[0] == '-';
      SanitizeAllowed(y[1..]);
      assert [y[0]] + y[1..] == y;
    }
  }

  /** Names of different namespaces meet too: what ends one DNS name can begin an image of the other. */
  lemma ShiftedName(x: string, y: string, image: string)
    requires Allowed(y)
    ensures DeploymentName(y + "-" + image, x) == DeploymentName(image, x + "-" + y)
  {
    SanitizeAllowed(y + "-");
    SanitizeConcat(y + "-", image);
    assert "worker-" + x + "-" + (y + "-" + Sanitize(image)) == "worker-" + (x + "-" + y) + "-" + Sanitize(image);
  }

  // ---------- which deployment names the API server admits ----------

  /** A letter, a digit, a hyphen, or a dot between letters or digits. */
  predicate CharOk(s: string, i: nat)
    requires i < |s|
  {
    Alnum(s[i]) || s[i] == '-' || (s[i] == '.' && 0 < i < |s| - 1 && Alnum(s[i - 1]) && Alnum(s[i + 1]))
  }

  /** Labels of section 2.1 of RFC 1123 joined by dots, in lower case: what names a deployment. */
  predicate ValidSubdomain(s: string) {
    1 <= |s| <= 253 && Alnum(s[0]) && Alnum(s[|s| - 1]) && forall i :: 0 <= i < |s| ==> CharOk(s, i)
  }

  /** Ends in a letter or digit; a dot stands between letters or digits, so not at the beginning. */
  predicate GoodPart(t: string) {
    t != "" && Alnum(t[|t| - 1]) && forall i :: 0 <= i < |t| ==> CharOk(t, i)
  }

  lemma TrimmedPrefixValid(dns: string, p: string)
    requires ValidLabel(dns) && p <= Prefix(dns) && |p| >= 6 && |p| <= 253
    ensures ValidSubdomain(TrimRight(p))
  {
    TrimRightKeeps(p);
    var t := TrimRight(p);
    assert p[..6] == "worker";
    assert p[5] == 'r' && p[0] == 'w';
    forall i | 0 <= i < |t| ensures Alnum(t[i]) || t[i] == '-' {
      assert t[i] == Prefix(dns)[i];
      if 7 <= i < 7 + |dns| {
        assert Prefix(dns)[i] == dns[i - 7];
      }
    }
  }

  lemma PartValid(dns: string, t: string)
    requires ValidLabel(dns) && t != "" && |t| <= 63
    ensures ValidSubdomain(Prefix(dns) + t) <==> GoodPart(t)
  {
    var p := Prefix(dns);
    var s := p + t;
    assert s[0] == 'w' && s[|s| - 1] == t[|t| - 1] && p[|p| - 1] == '-';
    forall i | 0 <= i < |p| ensures CharOk(s, i) {
      assert s[i] == p[i];
      if 7 <= i < 7 + |dns| {
        assert p[i] == dns[i - 7];
      }
    }
    forall i | 0 <= i < |t| && (Alnum(t[|t| - 1]) || i < |t| - 1) ensures CharOk(s, |p| + i) <==> CharOk(t, i) {
      assert s[|p| + i] == t[i];
      if i > 0 {
        assert s[|p| + i - 1] == t[i - 1];
      }
      if i + 1 < |t| {
        assert s[|p| + i + 1] == t[i + 1];
      }
    }
    if GoodPart(t) {
      forall i | 0 <= i < |s| ensures CharOk(s, i) {
        if i >= |p| {
          assert CharOk(t, i - |p|);
        }
      }
    }
    if ValidSubdomain(s) {
      forall i | 0 <= i < |t| ensures CharOk(t, i) {
        assert CharOk(s, |p| + i);
      }
    }
  }

  /**
    In a namespace with a label for its DNS name the generated deployment name is admitted exactly if
    nothing or a good part is kept of the image: no '@', '+' or other character outside [a-z0-9.-],
    and dots between letters or digits only.
   */
  lemma DeploymentNameValidIff(image: string, dns: string)
    requires ValidLabel(dns)
    ensures ValidSubdomain(DeploymentName(image, dns)) <==>
            |dns| >= 55 || ImagePart(image, dns) == "" || GoodPart(ImagePart(image, dns))
  {
    DeploymentNameParts(image, dns);
    if |dns| >= 55 {
      TrimmedPrefixValid(dns, Prefix(dns)[..63]);
    } else if ImagePart(image, dns) == "" {
      TrimmedPrefixValid(dns, Prefix(dns));
    } else {
      TrimRightKeeps(if |Sanitize(image)| > 55 - |dns| then Sanitize(image)[..55 - |dns|] else Sanitize(image));
      PartValid(dns, ImagePart(image, dns));
    }
  }

  /** An image and its variant with another separator collide in every namespace. */
  lemma DeploymentNamesCollide(dns: string)
    ensures DeploymentName("a/b", dns) == DeploymentName("a:b", dns) && "a/b" != "a:b"
  {
    assert Sanitize("a/b") == Sanitize("a:b") by {
      assert "a/b"[1..] == "/b" && "/b"[1..] == "b" && "b"[1..] == "";
      assert "a:b"[1..] == ":b" && ":b"[1..] == "b";
    }
    SameNameIff("a/b", "a:b", dns);
  }
}
