/** Which texts the browser's base64 decoder reads, which the verifier's reads, and where they agree. */
module Base64Spellings {
  import opened Tables
  import opened Text
  import opened Base64Url

  // ---- shapes of texts ---------------------------------------------------------------------------

  /** Characters that both decoders know, in the order of their values except for the last two. */
  predicate UrlAlphabet(c: char) { AlphaNumeric(c) || c == '-' || c == '_' }

  /** The browser knows both spellings of the last two. */
  predicate EitherAlphabet(c: char) { UrlAlphabet(c) || c == '+' || c == '/' }

  predicate AllUrl(s: string) { forall i :: 0 <= i < |s| ==> UrlAlphabet(s[i]) }

  predicate AllEither(s: string) { forall i :: 0 <= i < |s| ==> EitherAlphabet(s[i]) }

  /** The text without its trailing equals signs, and how many there were. */
  function Core(s: string): string {
    if s != [] && s[|s| - 1] == '=' then Core(s[..|s| - 1]) else s
  }

  function Equals(n: nat): (r: string)
    ensures |r| == n && forall i :: 0 <= i < n ==> r[i] == '='
  {
    seq(n, i => '=')
  }

  /** What is left over of the last character is zero, so that the text is the encoder's. */
  predicate ZeroTail(s: string) {
    && (|s| % 4 == 2 ==> ValueOf(s[|s| - 1], '-', '_').Some? && ValueOf(s[|s| - 1], '-', '_').value % 16 == 0)
    && (|s| % 4 == 3 ==> ValueOf(s[|s| - 1], '-', '_').Some? && ValueOf(s[|s| - 1], '-', '_').value % 4 == 0)
  }

  /** How many characters short of a multiple of four. */
  function Short(n: nat): nat { (4 - n % 4) % 4 }

  /** No equals signs, or the one or two that complete the last group. */
  predicate SignsFit(len: nat, signs: int) {
    if signs == 0 then len % 4 != 1 else 1 <= signs <= 2 && (len + signs) % 4 == 0
  }

  predicate BrowserFits(core: string, signs: int) { AllEither(core) && SignsFit(|core|, signs) }

  /** Read by the browser: white space aside, characters of either alphabet and then equals signs which,
      with those that the demo appends, fit. */
  predicate BrowserReads(s: string) {
    BrowserFits(Core(WithoutSpaces(s)), |WithoutSpaces(s)| - |Core(WithoutSpaces(s))| + Short(|s|))
  }

  /** Read by the verifier: the encoder's own alphabet and nothing left over. */
  predicate StrictReads(s: string) { AllUrl(s) && |s| % 4 != 1 && ZeroTail(s) }

  // ---- pieces ------------------------------------------------------------------------------------

  lemma CoreSplits(s: string)
    ensures |Core(s)| <= |s| && s == Core(s) + Equals(|s| - |Core(s)|)
    ensures Core(s) == [] || Core(s)[|Core(s)| - 1] != '='
  {
    if s != [] && s[|s| - 1] == '=' {
      CoreSplits(s[..|s| - 1]);
      assert s == s[..|s| - 1] + ['='];
    }
  }

  lemma {:induction false} EqualsConcat(m: nat, n: nat)
    ensures Equals(m) + Equals(n) == Equals(m + n)
  {
    forall i | 0 <= i < m + n ensures (Equals(m) + Equals(n))[i] == Equals(m + n)[i] {}
  }

  lemma FewEquals()
    ensures Equals(0) == "" && Equals(1) == "=" && Equals(2) == "==" && Equals(3) == "==="
  {
  }

  lemma PaddingIsEquals(n: nat)
    ensures Padding(n) == Equals(Short(n))
  {
    hide Padding, Equals;
    PaddingIs(n);
    FewEquals();
  }

  lemma {:induction false} WithoutSpacesConcat(a: string, b: string)
    ensures WithoutSpaces(a + b) == WithoutSpaces(a) + WithoutSpaces(b)
  {
    if a == [] {
      assert a + b == b;
    } else {
      assert (a + b)[1..] == a[1..] + b;
      WithoutSpacesConcat(a[1..], b);
    }
  }

  lemma WithoutSpacesCons(c: char, s: string)
    ensures WithoutSpaces([c] + s) == if IsSpace(c) then WithoutSpaces(s) else [c] + WithoutSpaces(s)
  {
    assert ([c] + s)[1..] == s;
    assert [] + WithoutSpaces(s) == WithoutSpaces(s);
  }

  function StandardChar(c: char): char { if c == '-' then '+' else if c == '_' then '/' else c }

  lemma StandardCons(c: char, s: string)
    ensures ToStandard([c] + s) == [StandardChar(c)] + ToStandard(s)
  {
    assert ([c] + s)[1..] == s;
  }

  lemma {:induction false} SpacesThenStandard(s: string)
    ensures WithoutSpaces(ToStandard(s)) == ToStandard(WithoutSpaces(s))
  {
    if s != [] {
      var c, rest := s[0], s[1..];
      assert s == [c] + rest;
      SpacesThenStandard(rest);
      StandardCons(c, rest);
      WithoutSpacesCons(c, rest);
      WithoutSpacesCons(StandardChar(c), ToStandard(rest));
      StandardCons(c, WithoutSpaces(rest));
    }
  }

  lemma {:induction false} StandardConcat(a: string, b: string)
    ensures ToStandard(a + b) == ToStandard(a) + ToStandard(b)
  {
    if a == [] {
      assert a + b == b;
    } else {
      assert (a + b)[1..] == a[1..] + b;
      StandardConcat(a[1..], b);
    }
  }

  lemma {:induction false} StandardAt(s: string, i: nat)
    requires i < |s|
    ensures ToStandard(s)[i] == if s[i] == '-' then '+' else if s[i] == '_' then '/' else s[i]
  {
    if i > 0 { StandardAt(s[1..], i - 1); }
  }

  lemma StandardEquals(n: nat)
    ensures ToStandard(Equals(n)) == Equals(n)
  {
    forall i | 0 <= i < n ensures ToStandard(Equals(n))[i] == Equals(n)[i] { StandardAt(Equals(n), i); }
  }

  lemma SpacelessSigns(s: string, q: nat)
    ensures WithoutSpaces(ToStandard(s) + Equals(q)) == ToStandard(WithoutSpaces(s)) + Equals(q)
  {
    WithoutSpacesConcat(ToStandard(s), Equals(q));
    SpacelessIsFixed(Equals(q));
    SpacesThenStandard(s);
  }

  lemma StandardCore(k: string)
    ensures |Core(k)| <= |k| && ToStandard(k) == ToStandard(Core(k)) + Equals(|k| - |Core(k)|)
  {
    CoreSplits(k);
    StandardConcat(Core(k), Equals(|k| - |Core(k)|));
    StandardEquals(|k| - |Core(k)|);
  }

  lemma PaddedCore(k: string, q: nat)
    ensures |Core(k)| <= |k| && ToStandard(k) + Equals(q) == ToStandard(Core(k)) + Equals(|k| - |Core(k)| + q)
  {
    StandardCore(k);
    EqualsConcat(|k| - |Core(k)|, q);
    Regroup(ToStandard(Core(k)), Equals(|k| - |Core(k)|), Equals(q));
  }

  lemma Regroup(a: string, b: string, c: string)
    ensures a + b + c == a + (b + c)
  {
  }

  /** One or two equals signs come off if they complete a group, and no more. */
  lemma PaddingRule(t: string, n: nat)
    requires t == [] || t[|t| - 1] != '='
    ensures WithoutPadding(t + Equals(n)) ==
      if n == 0 || (|t| + n) % 4 != 0 then t + Equals(n) else if n == 1 then t else t + Equals(n - 2)
  {
    var u := t + Equals(n);
    if n == 0 {
      assert u == t;
    } else if (|t| + n) % 4 == 0 {
      assert u[|u| - 1] == '=';
      if n == 1 {
        assert u[|u| - 2] == t[|t| - 1] && u[..|u| - 1] == t;
      } else {
        assert u[|u| - 2] == '=' && u[..|u| - 2] == t + Equals(n - 2);
      }
    }
  }

  // ---- values ------------------------------------------------------------------------------------

  lemma {:induction false} ValuesKnown(s: string, c62: char, c63: char)
    ensures ValuesOf(s, c62, c63).Some? <==> forall i :: 0 <= i < |s| ==> ValueOf(s[i], c62, c63).Some?
    ensures ValuesOf(s, c62, c63).Some? ==> |ValuesOf(s, c62, c63).value| == |s|
    ensures ValuesOf(s, c62, c63).Some? ==>
            forall i :: 0 <= i < |s| ==> ValueOf(s[i], c62, c63) == Some(ValuesOf(s, c62, c63).value[i])
  {
    if s != [] {
      var rest := s[1..];
      ValuesKnown(rest, c62, c63);
      forall i | 0 <= i < |s| ensures i > 0 ==> s[i] == rest[i - 1] {}
      if ValuesOf(rest, c62, c63).None? {
        var i :| 0 <= i < |rest| && ValueOf(rest[i], c62, c63).None?;
        assert s[i + 1] == rest[i];
      }
    }
  }

  lemma {:induction false} LaxIff(v: seq<Sextet>)
    ensures FromSextets(v, false).Some? <==> |v| % 4 != 1
  {
    if |v| > 3 { LaxIff(v[4..]); }
  }

  lemma {:induction false} StrictIff(v: seq<Sextet>)
    ensures FromSextets(v, true).Some? <==>
            |v| % 4 != 1 && (|v| % 4 == 2 ==> v[|v| - 1] % 16 == 0) && (|v| % 4 == 3 ==> v[|v| - 1] % 4 == 0)
    ensures FromSextets(v, true).Some? ==> FromSextets(v, false) == FromSextets(v, true)
  {
    if |v| > 3 { StrictIff(v[4..]); }
  }

  /** The known characters of the standard alphabet are the images of those of either one. */
  lemma StandardKnown(s: string)
    ensures ValuesOf(ToStandard(s), '+', '/').Some? <==> AllEither(s)
  {
    ValuesKnown(ToStandard(s), '+', '/');
    forall i | 0 <= i < |s| ensures ValueOf(ToStandard(s)[i], '+', '/').Some? <==> EitherAlphabet(s[i]) { StandardAt(s, i); }
  }

  /** A text with an equals sign left in it is not read. */
  lemma EqualsUnknown(t: string, n: nat)
    requires n > 0
    ensures ValuesOf(t + Equals(n), '+', '/').None?
  {
    ValuesKnown(t + Equals(n), '+', '/');
    assert (t + Equals(n))[|t|] == '=';
  }

  // ---- what the decoders read --------------------------------------------------------------------

  /** The bytes of a text without white space and equals signs. */
  function CoreBytes(core: string): Option<seq<Byte>> {
    var v := ValuesOf(ToStandard(core), '+', '/');
    if v.None? then None else FromSextets(v.value, false)
  }

  function WithoutSpacesRead(u: string): Option<seq<Byte>> { PaddedRead(WithoutPadding(u)) }

  lemma CoreReads(core: string)
    ensures CoreBytes(core).Some? <==> AllEither(core) && |core| % 4 != 1
  {
    StandardKnown(core);
    ValuesKnown(ToStandard(core), '+', '/');
    if AllEither(core) { LaxIff(ValuesOf(ToStandard(core), '+', '/').value); }
  }

  lemma FitsLength(len: nat, signs: int)
    requires SignsFit(len, signs)
    ensures len % 4 != 1
  {
  }

  lemma PaddedFits(core: string, n: nat)
    requires core == [] || core[|core| - 1] != '='
    ensures WithoutSpacesRead(ToStandard(core) + Equals(n)) == if SignsFit(|core|, n) then CoreBytes(core) else None
  {
    if core != [] { StandardAt(core, |core| - 1); }
    if SignsFit(|core|, n) { Fit(ToStandard(core), n); } else { Misfit(ToStandard(core), n); }
  }

  lemma Fit(t: string, n: nat)
    requires t == [] || t[|t| - 1] != '='
    requires SignsFit(|t|, n)
    ensures WithoutSpacesRead(t + Equals(n)) == PaddedRead(t) && |t| % 4 != 1
  {
    PaddingRule(t, n);
    FitsLength(|t|, n);
    Unpadded(t);
  }

  lemma Misfit(t: string, n: nat)
    requires t == [] || t[|t| - 1] != '='
    requires !SignsFit(|t|, n)
    ensures WithoutSpacesRead(t + Equals(n)).None?
  {
    PaddingRule(t, n);
    if n == 0 {
      Unpadded(t);
    } else if (|t| + n) % 4 != 0 {
      EqualsUnread(t, n);
    } else {
      EqualsUnread(t, n - 2);
    }
  }

  function PaddedRead(t: string): Option<seq<Byte>> {
    if |t| % 4 == 1 then None
    else
      var v := ValuesOf(t, '+', '/');
      if v.None? then None else FromSextets(v.value, false)
  }

  lemma Unpadded(t: string)
    ensures t + Equals(0) == t
  {
  }

  lemma EqualsUnread(t: string, n: nat)
    requires n > 0
    ensures PaddedRead(t + Equals(n)).None?
  {
    EqualsUnknown(t, n);
  }

  lemma StandardRead(k: string, q: nat)
    ensures |Core(k)| <= |k|
    ensures WithoutSpacesRead(ToStandard(k) + Equals(q)) == if SignsFit(|Core(k)|, |k| - |Core(k)| + q) then CoreBytes(Core(k)) else None
  {
    hide *;
    PaddedCore(k, q);
    CoreSplits(k);
    PaddedFits(Core(k), |k| - |Core(k)| + q);
  }

  lemma AtobOfStandard(s: string, q: nat)
    ensures var k := WithoutSpaces(s);
            && |Core(k)| <= |k|
            && Atob(ToStandard(s) + Equals(q)) == (if SignsFit(|Core(k)|, |k| - |Core(k)| + q) then CoreBytes(Core(k)) else None)
  {
    hide *;
    AtobIs(ToStandard(s) + Equals(q));
    SpacelessSigns(s, q);
    StandardRead(WithoutSpaces(s), q);
  }

  lemma FittingReads(core: string, signs: int)
    ensures (if SignsFit(|core|, signs) then CoreBytes(core) else None).Some? <==> BrowserFits(core, signs)
  {
    CoreReads(core);
    if SignsFit(|core|, signs) { FitsLength(|core|, signs); }
  }

  /** The browser reads exactly these texts, and reads in them nothing but their core. */
  lemma BrowserReadsIff(s: string)
    ensures B64UrlToBytes(s).Some? <==> BrowserReads(s)
    ensures BrowserReads(s) ==> B64UrlToBytes(s) == CoreBytes(Core(WithoutSpaces(s)))
  {
    hide *;
    var k := WithoutSpaces(s);
    AtobOfPadded(s);
    AtobOfStandard(s, Short(|s|));
    FittingReads(Core(k), |k| - |Core(k)| + Short(|s|));
    BrowserReadsIs(s);
  }

  lemma BrowserReadsIs(s: string)
    ensures BrowserReads(s) <==>
            BrowserFits(Core(WithoutSpaces(s)), |WithoutSpaces(s)| - |Core(WithoutSpaces(s))| + Short(|s|))
    ensures BrowserReads(s) ==> SignsFit(|Core(WithoutSpaces(s))|, |WithoutSpaces(s)| - |Core(WithoutSpaces(s))| + Short(|s|))
  {
  }

  lemma AtobIs(x: string)
    ensures Atob(x) == WithoutSpacesRead(WithoutSpaces(x))
  {
  }

  lemma AtobOfPadded(s: string)
    ensures B64UrlToBytes(s) == Atob(ToStandard(s) + Equals(Short(|s|)))
  {
    PaddingIsEquals(|s|);
  }

  lemma UrlKnown(s: string)
    ensures ValuesOf(s, '-', '_').Some? <==> AllUrl(s)
  {
    ValuesKnown(s, '-', '_');
  }

  /** The verifier reads exactly these. */
  lemma StrictReadsIff(s: string)
    ensures StrictDecode(s).Some? <==> StrictReads(s)
  {
    UrlKnown(s);
    ValuesKnown(s, '-', '_');
    if AllUrl(s) {
      var v := ValuesOf(s, '-', '_').value;
      StrictIff(v);
      if s != [] { assert ValueOf(s[|s| - 1], '-', '_') == Some(v[|v| - 1]); }
    }
  }

  lemma CoreOfPlain(s: string)
    requires s == [] || s[|s| - 1] != '='
    ensures Core(s) == s
  {
  }

  /** A text of the encoder's alphabet is its own core. */
  lemma UrlIsCore(s: string)
    requires AllUrl(s)
    ensures WithoutSpaces(s) == s && Core(s) == s && AllEither(s)
  {
    forall i | 0 <= i < |s| ensures !IsSpace(s[i]) { assert UrlAlphabet(s[i]); }
    SpacelessIsFixed(s);
    if s != [] { assert UrlAlphabet(s[|s| - 1]); }
    CoreOfPlain(s);
  }

  /** The two decoders give the same answer to a text exactly when the browser does not read it either, or
      it consists of the encoder's characters with nothing left over. */
  lemma DecodersAgreeIff(s: string)
    ensures B64UrlToBytes(s) == StrictDecode(s) <==> !BrowserReads(s) || (AllUrl(s) && ZeroTail(s))
    ensures StrictDecode(s).Some? ==> B64UrlToBytes(s) == StrictDecode(s)
  {
    BrowserReadsIff(s);
    StrictReadsIff(s);
    if AllUrl(s) {
      UrlIsCore(s);
      assert BrowserReads(s) <==> SignsFit(|s|, Short(|s|));
    }
    if StrictDecode(s).Some? {
      StrictDecodeIff(s, StrictDecode(s).value);
      BrowserRoundTrip(StrictDecode(s).value);
    }
  }

  /** What the browser alone reads: texts with white space, with equals signs, with the other spelling of
      the last two characters, or with something left over. */
  lemma BrowserAloneIff(s: string)
    ensures B64UrlToBytes(s).Some? && StrictDecode(s).None? <==>
            BrowserReads(s) && ((exists i :: 0 <= i < |s| && Foreign(s[i])) || !ZeroTail(s))
  {
    DecodersAgreeIff(s);
    BrowserReadsIff(s);
    if BrowserReads(s) { UrlIff(s); }
  }

  predicate Foreign(c: char) { IsSpace(c) || c in {'=', '+', '/'} }

  lemma UrlIff(s: string)
    requires BrowserReads(s)
    ensures AllUrl(s) <==> !exists i :: 0 <= i < |s| && Foreign(s[i])
  {
    ReadCharacters(s);
    forall i | 0 <= i < |s| ensures UrlAlphabet(s[i]) <==> !Foreign(s[i]) {}
  }

  /** A text that the browser reads has no other characters. */
  lemma ReadCharacters(s: string)
    requires BrowserReads(s)
    ensures forall i :: 0 <= i < |s| ==> IsSpace(s[i]) || s[i] == '=' || EitherAlphabet(s[i])
  {
    var k := WithoutSpaces(s);
    CoreSplits(k);
    forall i | 0 <= i < |s| ensures IsSpace(s[i]) || s[i] == '=' || EitherAlphabet(s[i]) {
      if !IsSpace(s[i]) {
        KeptBySpaces(s, i);
        var j :| 0 <= j < |k| && k[j] == s[i];
        if j < |Core(k)| { assert EitherAlphabet(Core(k)[j]); } else { assert k[j] == Equals(|k| - |Core(k)|)[j - |Core(k)|]; }
      }
    }
  }

  lemma {:induction false} KeptBySpaces(s: string, i: nat)
    requires i < |s| && !IsSpace(s[i])
    ensures s[i] in WithoutSpaces(s)
  {
    if i > 0 { KeptBySpaces(s[1..], i - 1); }
  }
}
