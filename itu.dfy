/**
 * `get_itu_dishes` (kantine.py:11-53): ten fixed crops of the ITU billboard
 * image, five columns (Monday to Friday) in a warm-dish row and a veggie-dish
 * row, each read by OCR and cleaned.  Fetching and decoding the image is
 * outside the model; OCR of a region of that image is a function parameter.
 */
module Itu {
  import opened Text
  import opened Canteen

  /** `start_x`: the left edge of each weekday column, Monday first. */
  const StartX: seq<int> := [350, 670, 955, 1240, 1530]
  const Width: int := 225
  const Height: int := 120
  const WarmDishY: int := 662
  const VeggieDishY: int := 788
  const WarmTitle: string := "ITU - Warm Dishes"
  const VeggieTitle: string := "ITU - Warm Veggie"

  /** The crop `img[top:bottom, left:right]`: rows `[top, bottom)`, columns `[left, right)`. */
  datatype Region = Region(top: int, bottom: int, left: int, right: int)

  /** No pixel lies in both regions. */
  predicate Disjoint(a: Region, b: Region) {
    a.bottom <= b.top || b.bottom <= a.top || a.right <= b.left || b.right <= a.left
  }

  /** `img[y:y + height, x:x + width]`. */
  function Crop(x: int, y: int): Region {
    Region(y, y + Height, x, x + Width)
  }

  /** The warm dish of weekday `i`: rows [662, 782), columns from `start_x[i]`, 225 wide. */
  function WarmCrop(i: nat): (r: Region)
    requires i < |StartX|
    ensures r == Region(662, 782, StartX[i], StartX[i] + 225)
  {
    Crop(StartX[i], WarmDishY)
  }

  /** The veggie dish of weekday `i`: rows [788, 908), the same columns as the warm dish. */
  function VeggieCrop(i: nat): (r: Region)
    requires i < |StartX|
    ensures r == Region(788, 908, StartX[i], StartX[i] + 225)
  {
    Crop(StartX[i], VeggieDishY)
  }

  /** Each column ends before the next one starts. */
  lemma ColumnsApart(i: nat, j: nat)
    requires i < j < |StartX|
    ensures StartX[i] + Width <= StartX[j]
    decreases j - i
  {
    assert StartX[i] + Width <= StartX[i + 1];
    if i + 1 < j {
      ColumnsApart(i + 1, j);
    }
  }

  /** The ten crops are pairwise disjoint: no part of the image is read twice. */
  lemma CropsDisjoint(i: nat, warmI: bool, j: nat, warmJ: bool)
    requires i < |StartX| && j < |StartX| && (i != j || warmI != warmJ)
    ensures Disjoint(if warmI then WarmCrop(i) else VeggieCrop(i), if warmJ then WarmCrop(j) else VeggieCrop(j))
  {
    if i < j {
      ColumnsApart(i, j);
    } else if j < i {
      ColumnsApart(j, i);
    }
  }

  /** `text.strip().replace('\n', ' ')`: no line break and no whitespace at either end. */
  function CleanOcr(text: string): (r: string)
    ensures '\n' !in r
    ensures IsStripped(r)
    ensures |r| == |Strip(text)|
  {
    var s := Strip(text);
    var r := ReplaceChar(s, '\n', ' ');
    assert r != [] ==> r[0] == s[0] && r[|r| - 1] == s[|s| - 1];
    r
  }

  /** Everything but the line breaks is kept, in place. */
  lemma CleanOcrKeepsText(text: string, i: nat)
    requires i < |Strip(text)| && Strip(text)[i] != '\n'
    ensures CleanOcr(text)[i] == Strip(text)[i]
  {
  }

  /** Cleaning an already cleaned text changes nothing. */
  lemma CleanOcrIdempotent(text: string)
    ensures CleanOcr(CleanOcr(text)) == CleanOcr(text)
  {
    var r := CleanOcr(text);
    assert Strip(r) == r;
    assert ReplaceChar(r, '\n', ' ') == r;
  }

  /**
   * The cleaned OCR text of the five crops of one row, Monday to Friday: the
   * `i`-th entry is read from the column at `start_x[i]`.  No entry holds a
   * line break or has whitespace at either end.
   */
  function Row(ocr: Region -> string, y: int): (r: seq<string>)
    ensures |r| == |StartX|
    ensures forall i :: 0 <= i < |r| ==> '\n' !in r[i] && IsStripped(r[i])
  {
    var r := seq(|StartX|, i requires 0 <= i < |StartX| => CleanOcr(ocr(Crop(StartX[i], y))));
    assert forall i :: 0 <= i < |r| ==> r[i] == CleanOcr(ocr(Crop(StartX[i], y)));
    r
  }

  /** The two menus `get_itu_dishes` returns: the warm row, then the veggie row. */
  function ItuMenus(ocr: Region -> string): (r: seq<Menu>)
    ensures |r| == 2 && |r[0].days| == |StartX| && |r[1].days| == |StartX|
  {
    [Menu(WarmTitle, Row(ocr, WarmDishY)), Menu(VeggieTitle, Row(ocr, VeggieDishY))]
  }

  /**
   * `get_itu_dishes`: for each column, in order, the warm and the veggie
   * crop are read and cleaned; two menus of five entries come back.
   */
  method GetItuDishes(ocr: Region -> string) returns (r: seq<Menu>)
    ensures r == ItuMenus(ocr)
  {
    var warmDishes: seq<string> := [];
    var veggieDishes: seq<string> := [];
    for i := 0 to |StartX|
      invariant warmDishes == Row(ocr, WarmDishY)[..i]
      invariant veggieDishes == Row(ocr, VeggieDishY)[..i]
    {
      assert Row(ocr, WarmDishY)[..i + 1] == Row(ocr, WarmDishY)[..i] + [Row(ocr, WarmDishY)[i]];
      assert Row(ocr, VeggieDishY)[..i + 1] == Row(ocr, VeggieDishY)[..i] + [Row(ocr, VeggieDishY)[i]];
      var x := StartX[i];
      var text := ocr(Crop(x, WarmDishY));
      warmDishes := warmDishes + [CleanOcr(text)];
      var veggieDish := ocr(Crop(x, VeggieDishY));
      veggieDishes := veggieDishes + [CleanOcr(veggieDish)];
    }
    assert Row(ocr, WarmDishY)[..|StartX|] == Row(ocr, WarmDishY);
    assert Row(ocr, VeggieDishY)[..|StartX|] == Row(ocr, VeggieDishY);
    r := [Menu(WarmTitle, warmDishes), Menu(VeggieTitle, veggieDishes)];
  }

  /**
   * The shape of what `get_itu_dishes` returns: the warm row then the veggie
   * row, five entries each, entry `i` read from the crop at column `start_x[i]`.
   */
  lemma ItuShape(ocr: Region -> string, i: nat)
    requires i < |StartX|
    ensures ItuMenus(ocr)[0].title == WarmTitle && ItuMenus(ocr)[1].title == VeggieTitle
    ensures ItuMenus(ocr)[0].days[i] == CleanOcr(ocr(WarmCrop(i)))
    ensures ItuMenus(ocr)[1].days[i] == CleanOcr(ocr(VeggieCrop(i)))
  {
  }
}
