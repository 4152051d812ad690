/** Font descriptors of text mappings: a family, a weight, a slant and a
    size, read from and written to strings such as "Monospace Regular 12". */
module Fonts {
  import opened Wrappers
  import opened Strs

  datatype FontWeight = Normal | Bold
  datatype FontSlant = Normal | Italic | Oblique

  datatype FontData = FontData(family: string, weight: FontWeight, slant: FontSlant, size: int)

  /** create_standard_font */
  function StandardFont(): FontData
  {
    FontData("Liberation Sans", FontWeight.Normal, FontSlant.Normal, 12)
  }

  function SlantWord(s: FontSlant): string
  {
    match s
    case Normal => ""
    case Italic => "Italic"
    case Oblique => "Oblique"
  }

  /** The leftmost occurrence of either slant word, with the slant it names. */
  function FindSlant(s: string): (r: Option<(nat, FontSlant)>)
    ensures r.None? <==> !Contains(s, "Italic") && !Contains(s, "Oblique")
    ensures r.Some? ==> r.value.1 != FontSlant.Normal && OccursAt(s, SlantWord(r.value.1), r.value.0)
    ensures r.Some? ==> forall k: nat :: k < r.value.0 ==> !OccursAt(s, "Italic", k) && !OccursAt(s, "Oblique", k)
  {
    match (Find(s, "Italic"), Find(s, "Oblique"))
    case (None, None) => None
    case (Some(i), None) => Some((i, Italic))
    case (None, Some(o)) => Some((o, Oblique))
    case (Some(i), Some(o)) => if i <= o then Some((i, Italic)) else Some((o, Oblique))
  }

  /** The style words of the text before the size: the first slant word sets
      the slant and cuts the text there; "Bold" in what is left sets the
      weight and cuts again; the rest is the family. */
  function SplitStyle(prefix: string): (r: (string, FontWeight, FontSlant))
    ensures |r.0| <= |prefix| && r.0 == prefix[..|r.0|]
    ensures r.2 == FontSlant.Normal <==> FindSlant(prefix).None?
  {
    var slantMatch := FindSlant(prefix);
    var slant := if slantMatch.Some? then slantMatch.value.1 else FontSlant.Normal;
    var prefix2 := if slantMatch.Some? then prefix[..slantMatch.value.0] else prefix;
    var weightMatch := Find(prefix2, "Bold");
    var weight := if weightMatch.Some? then Bold else FontWeight.Normal;
    var family := if weightMatch.Some? then prefix2[..weightMatch.value] else prefix2;
    (family, weight, slant)
  }

  /** FontData::new_from_string: the descriptor must end in two digits (the
      program aborts otherwise), which give the size; the text before them
      is split into family and style words. */
  function NewFromString(font: string): (r: Outcome<FontData>)
    ensures r.Returned? <==> |font| >= 2 && IsDigit(font[|font| - 2]) && IsDigit(font[|font| - 1])
    ensures r.Returned? ==> r.value.size == 10 * DigitOf(font[|font| - 2]) + DigitOf(font[|font| - 1])
    ensures r.Returned? ==> |r.value.family| <= |font| - 2 && r.value.family == font[..|r.value.family|]
    ensures r.Returned? ==> (r.value.slant == FontSlant.Normal <==> FindSlant(font[..|font| - 2]).None?)
  {
    if |font| < 2 || !IsDigit(font[|font| - 2]) || !IsDigit(font[|font| - 1]) then Panic
    else
      var size := 10 * DigitOf(font[|font| - 2]) + DigitOf(font[|font| - 1]);
      var style := SplitStyle(font[..|font| - 2]);
      Returned(FontData(style.0, style.1, style.2, size))
  }

  /** Reading a descriptor made of a prefix and a two-digit size. */
  lemma ReadSized(prefix: string, n: nat)
    requires 10 <= n <= 99
    ensures var st := SplitStyle(prefix);
      NewFromString(prefix + NatToString(n)) == Returned(FontData(st.0, st.1, st.2, n))
  {
    TwoDigits(n);
    var font := prefix + NatToString(n);
    assert font[..|font| - 2] == prefix;
    assert font[|font| - 2] == DigitChar(n / 10) && font[|font| - 1] == DigitChar(n % 10);
  }

  /** Bold is recognised only before the slant word, or before the size when
      there is none. */
  lemma BoldOnlyBeforeSlant(font: string)
    requires NewFromString(font).Returned?
    ensures var prefix := font[..|font| - 2];
      var cut := if FindSlant(prefix).Some? then FindSlant(prefix).value.0 else |prefix|;
      NewFromString(font).value.weight == Bold <==> Contains(prefix[..cut], "Bold")
  {
    var prefix := font[..|font| - 2];
    assert NewFromString(font).value.weight == SplitStyle(prefix).1;
    assert prefix[..|prefix|] == prefix;
  }

  function WeightWord(w: FontWeight): string
  {
    match w
    case Normal => ""
    case Bold => " Bold"
  }

  function SlantSuffix(s: FontSlant): string
  {
    match s
    case Normal => ""
    case Italic => " Italic"
    case Oblique => " Oblique"
  }

  /** Decimal text of an `i32`. */
  function IntToString(n: int): string
  {
    if n < 0 then "-" + NatToString(-n) else NatToString(n)
  }

  /** description: family, then the slant word, then the weight word, then
      the size with no space before it. */
  function Description(f: FontData): (s: string)
    ensures s == f.family + SlantSuffix(f.slant) + WeightWord(f.weight) + IntToString(f.size)
  {
    var font := f.family;
    var font := font + SlantSuffix(f.slant);
    var font := font + WeightWord(f.weight);
    font + IntToString(f.size)
  }

  /** description with the weight written before the slant, the order in
      which new_from_string looks for them. */
  function DescriptionFixed(f: FontData): (s: string)
    ensures s == f.family + WeightWord(f.weight) + SlantSuffix(f.slant) + IntToString(f.size)
  {
    f.family + WeightWord(f.weight) + SlantSuffix(f.slant) + IntToString(f.size)
  }

  predicate NoStyleWords(family: string)
  {
    !Contains(family, "Italic") && !Contains(family, "Oblique") && !Contains(family, "Bold")
  }

  lemma TwoDigits(n: nat)
    requires 10 <= n <= 99
    ensures NatToString(n) == [DigitChar(n / 10), DigitChar(n % 10)]
  {
    assert NatToString(n / 10) == [DigitChar(n / 10)];
  }

  /** A first occurrence is the one Find reports. */
  lemma FindFirst(s: string, pat: string, k: nat)
    requires |pat| > 0 && OccursAt(s, pat, k)
    requires forall j: nat :: j < k ==> !OccursAt(s, pat, j)
    ensures Find(s, pat) == Some(k)
  {
  }

  /** A pattern cannot occur in a text that lacks one of its characters. */
  lemma MissingChar(s: string, pat: string, i: nat)
    requires |pat| > 0 && i < |pat| && pat[i] !in s
    ensures !Contains(s, pat)
  {
    forall k: nat
      ensures !OccursAt(s, pat, k)
    {
      if k + |pat| <= |s| {
        assert s[k..k + |pat|][i] == s[k + i];
      }
    }
  }

  /** No occurrence of a space-free pattern starts inside `a` and runs into a
      text that begins with a space. */
  lemma NoStraddle(a: string, b: string, pat: string, k: nat)
    requires |pat| > 0 && ' ' !in pat && !Contains(a, pat)
    requires |b| > 0 ==> b[0] == ' '
    requires k < |a|
    ensures !OccursAt(a + b, pat, k)
  {
    var s := a + b;
    if k + |pat| <= |a| {
      assert s[k..k + |pat|] == a[k..k + |pat|];
      assert !OccursAt(a, pat, k);
    } else if k + |pat| <= |s| {
      assert s[k..k + |pat|][|a| - k] == ' ';
    }
  }

  lemma ShiftRight(a: string, b: string, pat: string, k: nat)
    requires |a| <= k
    ensures OccursAt(a + b, pat, k) == OccursAt(b, pat, k - |a|)
  {
    var s := a + b;
    if k + |pat| <= |s| {
      assert s[k..k + |pat|] == b[k - |a|..k - |a| + |pat|];
    }
  }

  /** Searching past a text free of the pattern, when what follows begins with a space. */
  lemma FindAfter(a: string, b: string, pat: string)
    requires |pat| > 0 && ' ' !in pat && !Contains(a, pat)
    requires |b| > 0 ==> b[0] == ' '
    ensures Find(b, pat).None? ==> Find(a + b, pat).None?
    ensures Find(b, pat).Some? ==> Find(a + b, pat) == Some(|a| + Find(b, pat).value)
  {
    if Find(b, pat).Some? {
      FindAfterSome(a, b, pat, Find(b, pat).value);
    } else {
      FindAfterNone(a, b, pat);
    }
  }

  lemma FindAfterNone(a: string, b: string, pat: string)
    requires |pat| > 0 && ' ' !in pat && !Contains(a, pat)
    requires |b| > 0 ==> b[0] == ' '
    requires Find(b, pat).None?
    ensures Find(a + b, pat).None?
  {
    forall j: nat
      ensures !OccursAt(a + b, pat, j)
    {
      if j < |a| {
        NoStraddle(a, b, pat, j);
      } else {
        ShiftRight(a, b, pat, j);
        assert !OccursAt(b, pat, j - |a|);
      }
    }
  }

  lemma FindAfterSome(a: string, b: string, pat: string, k: nat)
    requires |pat| > 0 && ' ' !in pat && !Contains(a, pat)
    requires |b| > 0 ==> b[0] == ' '
    requires Find(b, pat) == Some(k)
    ensures Find(a + b, pat) == Some(|a| + k)
  {
    ShiftRight(a, b, pat, |a| + k);
    forall j: nat | j < |a| + k
      ensures !OccursAt(a + b, pat, j)
    {
      if j < |a| {
        NoStraddle(a, b, pat, j);
      } else {
        ShiftRight(a, b, pat, j);
        assert !OccursAt(b, pat, j - |a|);
      }
    }
    FindFirst(a + b, pat, |a| + k);
  }

  lemma Absent(a: string, b: string, pat: string)
    requires |pat| > 0 && ' ' !in pat && !Contains(a, pat) && !Contains(b, pat)
    requires |b| > 0 ==> b[0] == ' '
    ensures !Contains(a + b, pat)
  {
    FindAfter(a, b, pat);
  }

  /** A space-free word placed after `a` and a space is found right there. */
  lemma WordAt(a: string, word: string, rest: string)
    requires |word| > 0 && ' ' !in word && !Contains(a, word)
    ensures Find(a + " " + word + rest, word) == Some(|a| + 1)
  {
    var b := " " + word + rest;
    assert a + " " + word + rest == a + b;
    assert b[1..1 + |word|] == word;
    assert !OccursAt(b, word, 0) by {
      assert |word| <= |b| ==> b[0..|word|][0] == ' ';
    }
    FindFirst(b, word, 1);
    FindAfter(a, b, word);
  }

  /** Fonts with neither a bold weight nor a slant survive description
      followed by new_from_string, given a two-digit size and a family free of
      style words. */
  lemma {:induction false} PlainRoundTrip(f: FontData)
    requires f.weight == FontWeight.Normal && f.slant == FontSlant.Normal
    requires 10 <= f.size <= 99 && NoStyleWords(f.family)
    ensures NewFromString(Description(f)) == Returned(f)
  {
    assert Description(f) == f.family + NatToString(f.size);
    ReadSized(f.family, f.size);
  }

  /** As written, a bold slanted font read back from its own description
      has lost its weight: the slant word comes first and cuts "Bold" off. */
  lemma {:induction false} BoldSlantedLosesWeight(f: FontData)
    requires 10 <= f.size <= 99 && NoStyleWords(f.family)
    requires f.weight == Bold && f.slant != FontSlant.Normal
    ensures NewFromString(Description(f)) == Returned(FontData(f.family + " ", FontWeight.Normal, f.slant, f.size))
  {
    var p := f.family + SlantSuffix(f.slant) + " Bold";
    assert Description(f) == p + NatToString(f.size);
    ReadSized(p, f.size);
    StyleSlantedBold(f.family, f.slant);
  }

  /** The smallest instance: "Sans Italic Bold12" is read back as a regular italic "Sans ". */
  lemma BoldItalicLosesWeight()
    ensures NewFromString(Description(FontData("Sans", Bold, Italic, 12)))
         == Returned(FontData("Sans ", FontWeight.Normal, Italic, 12))
  {
    MissingChar("Sans", "Italic", 0);
    MissingChar("Sans", "Oblique", 0);
    MissingChar("Sans", "Bold", 0);
    BoldSlantedLosesWeight(FontData("Sans", Bold, Italic, 12));
    assert "Sans" + " " == "Sans ";
  }

  lemma StyleSlantedBold(fam: string, sl: FontSlant)
    requires NoStyleWords(fam) && sl != FontSlant.Normal
    ensures SplitStyle(fam + SlantSuffix(sl) + " Bold") == (fam + " ", FontWeight.Normal, sl)
  {
    SlantWordsApart(sl);
    MissingChar(SlantSuffix(sl) + " Bold", SlantWord(OtherSlant(sl)), 0);
    SlantFound(fam, sl, " Bold");
    var p := fam + SlantSuffix(sl) + " Bold";
    assert p[..|fam| + 1] == fam + " ";
    NoBoldAfter(fam);
  }

  /** The first slant word after a family free of style words is found right after it. */
  lemma SlantFound(fam: string, sl: FontSlant, rest: string)
    requires !Contains(fam, "Italic") && !Contains(fam, "Oblique") && sl != FontSlant.Normal
    requires !Contains(SlantSuffix(sl) + rest, SlantWord(OtherSlant(sl)))
    ensures FindSlant(fam + SlantSuffix(sl) + rest) == Some((|fam| + 1, sl))
  {
    SlantWordsApart(sl);
    var word := SlantWord(sl);
    assert fam + SlantSuffix(sl) + rest == fam + " " + word + rest;
    WordAt(fam, word, rest);
    assert fam + SlantSuffix(sl) + rest == fam + (SlantSuffix(sl) + rest);
    Absent(fam, SlantSuffix(sl) + rest, SlantWord(OtherSlant(sl)));
  }

  lemma NoBoldAfter(fam: string)
    requires NoStyleWords(fam)
    ensures Find(fam + " ", "Bold").None?
  {
    MissingChar(" ", "Bold", 0);
    Absent(fam, " ", "Bold");
  }

  /** With the weight written first, every weight and slant survive the round
      trip; the family keeps the space that separated it from the first style word. */
  lemma {:induction false} FixedRoundTrip(f: FontData)
    requires 10 <= f.size <= 99 && NoStyleWords(f.family)
    ensures var styled := f.weight == Bold || f.slant != FontSlant.Normal;
      NewFromString(DescriptionFixed(f)) == Returned(f.(family := f.family + (if styled then " " else "")))
  {
    var fam := f.family;
    var p := fam + WeightWord(f.weight) + SlantSuffix(f.slant);
    assert DescriptionFixed(f) == p + NatToString(f.size);
    ReadSized(p, f.size);
    StyleOfFixed(fam, f.weight, f.slant);
  }

  lemma StyleOfFixed(fam: string, w: FontWeight, sl: FontSlant)
    requires NoStyleWords(fam)
    ensures var styled := w == Bold || sl != FontSlant.Normal;
      SplitStyle(fam + WeightWord(w) + SlantSuffix(sl)) == (fam + (if styled then " " else ""), w, sl)
  {
    if w == FontWeight.Normal && sl == FontSlant.Normal {
      assert fam + WeightWord(w) + SlantSuffix(sl) == fam && fam + "" == fam;
    } else if sl == FontSlant.Normal {
      assert fam + WeightWord(w) + SlantSuffix(sl) == fam + " Bold";
      StyleBold(fam);
    } else if w == FontWeight.Normal {
      assert fam + WeightWord(w) + SlantSuffix(sl) == fam + SlantSuffix(sl);
      StyleSlanted(fam, sl);
    } else {
      StyleBoldSlanted(fam, sl);
    }
  }

  lemma StyleBold(fam: string)
    requires NoStyleWords(fam)
    ensures SplitStyle(fam + " Bold") == (fam + " ", Bold, FontSlant.Normal)
  {
    var p := fam + " Bold";
    MissingChar(" Bold", "Italic", 0);
    MissingChar(" Bold", "Oblique", 0);
    Absent(fam, " Bold", "Italic");
    Absent(fam, " Bold", "Oblique");
    assert p == fam + " " + "Bold" + "";
    WordAt(fam, "Bold", "");
    assert p[..|fam| + 1] == fam + " ";
  }

  function OtherSlant(sl: FontSlant): FontSlant
  {
    if sl == Italic then Oblique else Italic
  }

  /** The words a slanted descriptor ends in, as searched by new_from_string. */
  lemma SlantWordsApart(sl: FontSlant)
    requires sl != FontSlant.Normal
    ensures SlantSuffix(sl) == " " + SlantWord(sl) && |SlantWord(sl)| > 0 && ' ' !in SlantWord(sl)
    ensures SlantWord(OtherSlant(sl)) != "" && ' ' !in SlantWord(OtherSlant(sl))
    ensures !Contains(SlantSuffix(sl), SlantWord(OtherSlant(sl)))
    ensures !Contains(" Bold" + SlantSuffix(sl), SlantWord(OtherSlant(sl)))
    ensures !Contains(" Bold", SlantWord(sl))
  {
    MissingChar(SlantSuffix(sl), SlantWord(OtherSlant(sl)), 0);
    MissingChar(" Bold" + SlantSuffix(sl), SlantWord(OtherSlant(sl)), 0);
    MissingChar(" Bold", SlantWord(sl), 0);
  }

  lemma StyleSlanted(fam: string, sl: FontSlant)
    requires NoStyleWords(fam) && sl != FontSlant.Normal
    ensures SplitStyle(fam + SlantSuffix(sl)) == (fam + " ", FontWeight.Normal, sl)
  {
    SlantWordsApart(sl);
    assert SlantSuffix(sl) + "" == SlantSuffix(sl);
    SlantFound(fam, sl, "");
    assert fam + SlantSuffix(sl) + "" == fam + SlantSuffix(sl);
    var p := fam + SlantSuffix(sl);
    assert p[..|fam| + 1] == fam + " ";
    NoBoldAfter(fam);
  }

  lemma StyleBoldSlanted(fam: string, sl: FontSlant)
    requires NoStyleWords(fam) && sl != FontSlant.Normal
    ensures SplitStyle(fam + " Bold" + SlantSuffix(sl)) == (fam + " ", Bold, sl)
  {
    BoldThenSlantFound(fam, sl);
    var p := fam + " Bold" + SlantSuffix(sl);
    assert p[..|fam| + 6] == fam + " Bold ";
    BoldFound(fam);
    assert (fam + " Bold ")[..|fam| + 1] == fam + " ";
  }

  lemma BoldThenSlantFound(fam: string, sl: FontSlant)
    requires NoStyleWords(fam) && sl != FontSlant.Normal
    ensures FindSlant(fam + " Bold" + SlantSuffix(sl)) == Some((|fam| + 6, sl))
  {
    SlantWordsApart(sl);
    Absent(fam, " Bold", SlantWord(sl));
    MissingChar(" Bold", SlantWord(OtherSlant(sl)), 0);
    Absent(fam, " Bold", SlantWord(OtherSlant(sl)));
    var famBold := fam + " Bold";
    assert famBold + SlantSuffix(sl) + "" == fam + " Bold" + SlantSuffix(sl);
    SlantFound(famBold, sl, "");
  }

  lemma BoldFound(fam: string)
    requires NoStyleWords(fam)
    ensures Find(fam + " Bold ", "Bold") == Some(|fam| + 1)
  {
    WordAt(fam, "Bold", " ");
    assert fam + " " + "Bold" + " " == fam + " Bold ";
  }
}
