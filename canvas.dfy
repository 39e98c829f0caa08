/** Assigning a number to a canvas element's `width` or `height`. The value is
    converted to an unsigned 32-bit integer, wrapping modulo 2^32 (the Web IDL
    standard, section "unsigned long" of the ECMAScript type mapping). A
    converted value above 2147483647 is not accepted, and the canvas gets its
    default size instead: 300 for the width and 150 for the height (the HTML
    Living Standard, sections "Reflecting content attributes in IDL
    attributes" and "The canvas element"). Integer arguments are assumed. */
module Canvas {
  const DefaultWidth: nat := 300
  const DefaultHeight: nat := 150

  /** The largest dimension the canvas accepts. */
  const MaxDim: nat := 2147483647

  /** The size a canvas ends up with after `canvas.width = v` (or `height`),
      where `dflt` is that dimension's default. */
  function CanvasDim(v: int, dflt: nat): (d: nat)
    ensures 0 <= v <= MaxDim ==> d == v
    ensures dflt <= MaxDim ==> d <= MaxDim
  {
    var u := v % 0x1_0000_0000;
    if u <= MaxDim then u else dflt
  }

  /** A negative size of at most 2^31 in magnitude is not accepted: the canvas
      is set to its default size. */
  lemma NegativeDimFallsBack(v: int, dflt: nat)
    requires -(MaxDim + 1) <= v < 0
    ensures CanvasDim(v, dflt) == dflt
  {
    assert v % 0x1_0000_0000 == v + 0x1_0000_0000;
  }

  /** A size of 2^31 or more, up to 2^32, is not accepted either. */
  lemma OversizedDimFallsBack(v: int, dflt: nat)
    requires MaxDim < v < 0x1_0000_0000
    ensures CanvasDim(v, dflt) == dflt
  {
  }

  /** The assignment only sees its value modulo 2^32. */
  lemma DimWraps(v: int, dflt: nat)
    ensures CanvasDim(v + 0x1_0000_0000, dflt) == CanvasDim(v, dflt)
  {
    assert (v + 0x1_0000_0000) % 0x1_0000_0000 == v % 0x1_0000_0000;
  }
}
