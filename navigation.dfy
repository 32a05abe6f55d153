/**
 * The "go to coordinates" box: the user types "X Z" in block coordinates and
 * the map is centred on the matching pixel, where a marker is dropped.
 */
module Navigation {
  import opened Wrappers
  import opened Coords
  import opened Text

  datatype GoError =
    | WrongFormat      // the trimmed input is not exactly two space-separated parts
    | InvalidNumbers   // one of the parts does not start with a number

  /**
   * The pixel the view moves to for the typed text. The input must hold
   * exactly one space once trimmed; the pixel then shows, as a block, the two
   * numbers parseInt reads from the parts.
   */
  function GoToCoords(input: string): (r: Result<LatLng, GoError>)
    ensures r == Failure(WrongFormat) <==> Count(Trim(input), ' ') != 1
    ensures r.Success? ==>
      var parts := Split(Trim(input));
      |parts| == 2 && IsIntegralPoint(r.value)
      && ParseInt(parts[0]) == Some(PixelToBlock(r.value).x)
      && ParseInt(parts[1]) == Some(PixelToBlock(r.value).z)
    ensures r == Failure(InvalidNumbers) ==>
      var parts := Split(Trim(input));
      |parts| == 2 && (ParseInt(parts[0]).None? || ParseInt(parts[1]).None?)
  {
    var parts := Split(Trim(input));
    if |parts| != 2 then Failure(WrongFormat)
    else
      var x := ParseInt(parts[0]);
      var z := ParseInt(parts[1]);
      if x.None? || z.None? then Failure(InvalidNumbers)
      else Success(BlockToPixel(Block(x.value, z.value)))
  }

  /** Two words without spaces, joined by one space, trim to themselves and split back into the two words. */
  lemma SplitTwoWords(sx: string, sz: string)
    requires |sx| > 0 && |sz| > 0 && ' ' !in sx && ' ' !in sz
    requires !IsJsSpace(sx[0]) && !IsJsSpace(sz[|sz| - 1])
    ensures Split(Trim(sx + " " + sz)) == [sx, sz]
  {
    var input := sx + " " + sz;
    assert input[0] == sx[0];
    assert input[|input| - 1] == sz[|sz| - 1];
    TrimNoEdges(input);
    SplitAfterWord(sx, sz);
    SplitWord(sz);
  }

  /** Two words without spaces, each read as a number, go to the block they name. */
  lemma GoToWords(sx: string, sz: string, b: Block)
    requires |sx| > 0 && |sz| > 0 && ' ' !in sx && ' ' !in sz
    requires !IsJsSpace(sx[0]) && !IsJsSpace(sz[|sz| - 1])
    requires ParseInt(sx) == Some(b.x) && ParseInt(sz) == Some(b.z)
    ensures GoToCoords(sx + " " + sz) == Success(BlockToPixel(b))
  {
    SplitTwoWords(sx, sz);
  }

  /** Typing a block's coordinates as JavaScript prints them goes to that block's pixel. */
  lemma GoToPrintedBlock(b: Block)
    ensures GoToCoords(Show(b.x) + " " + Show(b.z)) == Success(BlockToPixel(b))
  {
    ParseShow(b.x);
    ParseShow(b.z);
    GoToWords(Show(b.x), Show(b.z), b);
  }
}
