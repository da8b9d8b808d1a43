/**
 * The deterministic choice of a conceptual insight category: the SHA-256
 * digest of the input, read as an unsigned integer, picks one of nine fixed
 * catalog entries by its remainder modulo nine; the first eight digest
 * characters are the request's id marker.
 */
module ConceptualLink {
  import opened Hex

  /** A value of `hashlib.sha256(...).hexdigest()`: 64 lowercase hex characters. */
  type Digest = d: string | |d| == 64 && AllHex(d)
    witness ToHex(0, 64)

  /** What the selector returns for one input. */
  datatype Selection = Selection(name: string, baseMeaning: string, idMarker: string)

  /**
   * The catalog of nine categories, held as two parallel lists: entry `i`
   * is the `i`-th name with the `i`-th base meaning. These are the names.
   */
  const CategoryNames: seq<string> := [
    "Core Belief Alignment",
    "Cross-Perspective Clarity",
    "Unified Purpose Focus",
    "Fundamental Connection Point",
    "Self-Correction Feedback Loop",
    "Timing & Impact Synchronization",
    "Resource Flow Optimization",
    "Pattern Recognition Synthesis",
    "Emergent Property Definition"
  ]

  /**
   * The base meaning of each category, in the same order. Each is written
   * as short pieces joined by `+`, which keeps the verifier's work on the
   * literals small; the text is unchanged.
   */
  const BaseMeanings: seq<string> := [
    "It seems your deepest "
      + "beliefs or assumptions "
      + "aren't quite lining up "
      + "with what you're doing "
      + "or hoping to achieve.",
    "You might be missing a "
      + "clear way to see and "
      + "connect different "
      + "angles or "
      + "understandings of your "
      + "situation.",
    "There could be some "
      + "hidden conflicts in "
      + "your desires or goals, "
      + "making it hard to focus "
      + "all your energy on one "
      + "clear path.",
    "You're looking for the "
      + "very basic, "
      + "foundational link "
      + "between ideas or parts "
      + "that seem separate in "
      + "your mind.",
    "Your current way of "
      + "doing things isn't "
      + "naturally set up to "
      + "learn and get better "
      + "from its own "
      + "experiences. There's a "
      + "missing natural cycle "
      + "of checking and "
      + "adjusting.",
    "The key insight you're "
      + "missing is knowing "
      + "exactly *when* and "
      + "*where* even a small "
      + "action will create the "
      + "biggest, most effective "
      + "ripple effect. Your "
      + "efforts might be out of "
      + "sync.",
    "This insight is about "
      + "how your energy, "
      + "attention, or assets "
      + "are being used. There "
      + "might be a hidden "
      + "blockage or "
      + "inefficiency preventing "
      + "smooth progress.",
    "You're seeing bits and "
      + "pieces, but not the "
      + "bigger, repeating "
      + "patterns or connections "
      + "that would reveal a "
      + "deeper truth or help "
      + "you predict things "
      + "better.",
    "The gap in your "
      + "understanding is about "
      + "how simple parts come "
      + "together to create "
      + "complex, surprising, "
      + "and powerful new "
      + "qualities or behaviors "
      + "that weren't there "
      + "before."
  ]

  /** `len(catalog)`. */
  const CategoryCount: nat := 9

  /** Both lists hold one entry per category. */
  lemma CatalogSize()
    ensures |CategoryNames| == |BaseMeanings| == CategoryCount
  {
  }

  /** `int(digest, 16) % len(catalog)`: always a valid catalog position. */
  function CategoryIndex(d: Digest): (i: nat)
    ensures i < CategoryCount
  {
    HexValue(d) % CategoryCount
  }

  /** `derive_aether_conceptual_link`, with `sha256` standing for the hash of the input's UTF-8 bytes. */
  function Select(sha256: string -> Digest, input: string): (r: Selection)
    ensures r.name == CategoryNames[CategoryIndex(sha256(input))]
    ensures r.baseMeaning == BaseMeanings[CategoryIndex(sha256(input))]
    ensures |r.idMarker| == 8 && AllHex(r.idMarker)
    ensures StartsWithMarker(sha256(input), r.idMarker)
  {
    var digest := sha256(input);
    var i := CategoryIndex(digest);
    CatalogSize();
    Selection(CategoryNames[i], BaseMeanings[i], digest[..8])
  }

  predicate StartsWithMarker(digest: string, marker: string) {
    |marker| <= |digest| && digest[..|marker|] == marker
  }

  /** No two catalog entries share a name. */
  lemma CatalogNamesDistinct(a: nat, b: nat)
    requires a < |CategoryNames| && b < |CategoryNames| && a != b
    ensures CategoryNames[a] != CategoryNames[b]
  {
    assert CategoryNames[a][..2] != CategoryNames[b][..2] || CategoryNames[a][2] != CategoryNames[b][2];
  }

  /** Category names are single lines. */
  lemma CatalogNamesSingleLine(k: nat)
    requires k < |CategoryNames|
    ensures '\n' !in CategoryNames[k]
  {
    if k < 3 {
      FirstNamesSingleLine(k);
    } else if k < 6 {
      MiddleNamesSingleLine(k);
    } else {
      LastNamesSingleLine(k);
    }
  }

  lemma FirstNamesSingleLine(k: nat)
    requires k < 3
    ensures '\n' !in CategoryNames[k]
  {
  }

  lemma MiddleNamesSingleLine(k: nat)
    requires 3 <= k < 6
    ensures '\n' !in CategoryNames[k]
  {
  }

  lemma LastNamesSingleLine(k: nat)
    requires 6 <= k < 9
    ensures '\n' !in CategoryNames[k]
  {
  }

  /** Every input falls in exactly one category: the selected name is catalog entry `k` just when `k` is the index. */
  lemma SelectExactlyOne(sha256: string -> Digest, input: string, k: nat)
    requires k < |CategoryNames|
    ensures Select(sha256, input).name == CategoryNames[k] <==> k == CategoryIndex(sha256(input))
  {
    var i := CategoryIndex(sha256(input));
    if k != i {
      CatalogNamesDistinct(k, i);
    }
  }

  lemma {:induction false} Pow16AtLeast(n: nat)
    requires n >= 1
    ensures Pow16(n) >= 16
  {
    if n > 1 { Pow16AtLeast(n - 1); }
  }

  /** The digest naming the number `k` in `width` hex digits. */
  lemma DigestNaming(k: nat, width: nat) returns (d: string)
    requires 1 <= width && k < 16
    ensures |d| == width && AllHex(d) && HexValue(d) == k
  {
    Pow16AtLeast(width);
    d := ToHex(k, width);
    HexValueOfToHex(k, width);
  }

  /** No category is unreachable: some digest selects each of them. */
  lemma EveryCategoryReachable(k: nat)
    requires k < CategoryCount
    ensures exists d: Digest :: CategoryIndex(d) == k
  {
    var d: Digest := DigestNaming(k, 64);
    IndexOfSmallDigest(d);
  }

  lemma IndexOfSmallDigest(d: Digest)
    requires HexValue(d) < CategoryCount
    ensures CategoryIndex(d) == HexValue(d)
  {
  }

  /** Selection is a function of the digest alone, so equal inputs select equally. */
  lemma SelectDeterministic(sha256: string -> Digest, a: string, b: string)
    requires sha256(a) == sha256(b)
    ensures Select(sha256, a) == Select(sha256, b)
  {
  }
}
