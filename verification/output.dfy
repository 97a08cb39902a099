/** How the generated avatars and their metadata are named: the zero-padded image names and their
    unpadding in generate_images (nft.py:486-543), and clean_attributes, the padding width and the
    per-row JSON fields of metadata.py. */
module Output {
  import opened Wrappers
  import opened Digits
  import opened Text
  import opened Sequences

  // ---------------------------------------------------------------------------
  // Image file names (nft.py:505, 521, 527-541)

  /** len(str(count - 1)): the width every image number is padded to. */
  function ImageWidth(count: int): nat {
    |IntToString(count - 1)|
  }

  /** The name of the i-th image: its number padded with zeros to the common width. */
  function ImageName(i: nat, count: int): string {
    ZFill(NatToString(i), ImageWidth(count)) + ".png"
  }

  /** The rename applied when ZEROS_PAD is off: a name that starts with '0' loses its leading
      zeros, and '.png' becomes '0.png' again; other names are kept. */
  function Unpadded(filename: string): string {
    if filename != [] && filename[0] == '0' then
      var stripped := LStripZeros(filename);
      if stripped == ".png" then "0" + stripped else stripped
    else filename
  }

  /** Every image number below count is padded to the same width. */
  lemma ImageNameWidth(i: nat, count: int)
    requires i < count
    ensures |ImageName(i, count)| == ImageWidth(count) + 4
    ensures ImageName(i, count)[..ImageWidth(count)] == ZFill(NatToString(i), ImageWidth(count))
  {
    DigitCountMonotone(i, count - 1);
  }

  /** Unpadding a number written with some leading zeros gives back the number. */
  lemma UnpaddedDigits(pad: nat, digits: string)
    requires digits != [] && (digits[0] == '0' ==> digits == "0")
    ensures Unpadded(Zeros(pad) + digits + ".png") == digits + ".png"
  {
    if digits == "0" {
      assert Zeros(pad) + digits + ".png" == Zeros(pad + 1) + ".png";
      LStripZerosPrefix(pad + 1, ".png");
    } else {
      assert Zeros(pad) + digits + ".png" == Zeros(pad) + (digits + ".png");
      LStripZerosPrefix(pad, digits + ".png");
      if pad == 0 {
        assert Zeros(pad) + digits + ".png" == digits + ".png";
      }
    }
  }

  /** Unpadding an image name gives back str(i) + '.png'. */
  lemma UnpaddedImageName(i: nat, count: int)
    requires i < count
    ensures Unpadded(ImageName(i, count)) == NatToString(i) + ".png"
  {
    var digits := NatToString(i);
    DigitCountMonotone(i, count - 1);
    var pad := ImageWidth(count) - |digits|;
    assert ImageName(i, count) == Zeros(pad) + digits + ".png";
    UnpaddedDigits(pad, digits);
  }

  /** Different images get different names, padded or not. */
  lemma ImageNamesDistinct(i: nat, j: nat, count: int)
    requires i < count && j < count && i != j
    ensures ImageName(i, count) != ImageName(j, count)
    ensures Unpadded(ImageName(i, count)) != Unpadded(ImageName(j, count))
  {
    UnpaddedImageName(i, count);
    UnpaddedImageName(j, count);
    NatToStringRoundTrip(i);
    NatToStringRoundTrip(j);
    AppendCancel(NatToString(i), NatToString(j), ".png");
  }

  // ---------------------------------------------------------------------------
  // clean_attributes (metadata.py:63-73)

  /** The k-th character of the cleaned name: '_' becomes a space, and the first character and
      every character after a space or '_' is upper-cased. */
  function CleanChar(attr: string, k: nat): char
    requires k < |attr|
  {
    var c := if attr[k] == '_' then ' ' else attr[k];
    if k == 0 || attr[k - 1] == '_' || attr[k - 1] == ' ' then UpperChar(c) else c
  }

  /** The column name clean_attributes gives. */
  function Cleaned(attr: string): string {
    seq(|attr|, k requires 0 <= k < |attr| => CleanChar(attr, k))
  }

  /** clean_attributes: the underscores are replaced, then the characters at the start of a word
      are upper-cased one by one. */
  method CleanAttributes(attr: string) returns (clean: string)
    ensures clean == Cleaned(attr)
  {
    var chars := new char[|attr|];
    forall k | 0 <= k < |attr| {
      chars[k] := if attr[k] == '_' then ' ' else attr[k];
    }
    for idx := 0 to |attr|
      invariant forall k :: 0 <= k < idx ==> chars[k] == CleanChar(attr, k)
      invariant forall k :: idx <= k < |attr| ==> chars[k] == (if attr[k] == '_' then ' ' else attr[k])
    {
      if idx == 0 || chars[idx - 1] == ' ' {
        chars[idx] := UpperChar(chars[idx]);
      }
    }
    clean := chars[..];
  }

  /** The cleaned name has the same length and no underscore; it is upper-case at the start and
      after every space, and elsewhere every character other than '_' is kept. */
  lemma CleanedMeaning(attr: string)
    ensures |Cleaned(attr)| == |attr|
    ensures forall k :: 0 <= k < |attr| ==> Cleaned(attr)[k] != '_'
    ensures forall k :: 0 <= k < |attr| && (k == 0 || Cleaned(attr)[k - 1] == ' ') ==>
      Cleaned(attr)[k] == UpperChar(if attr[k] == '_' then ' ' else attr[k])
    ensures forall k :: 0 < k < |attr| && Cleaned(attr)[k - 1] != ' ' && attr[k] != '_' ==> Cleaned(attr)[k] == attr[k]
  {
  }

  /** Cleaning a cleaned name changes nothing. */
  lemma CleanedIdempotent(attr: string)
    ensures Cleaned(Cleaned(attr)) == Cleaned(attr)
  {
    var c := Cleaned(attr);
    forall k | 0 <= k < |c| ensures CleanChar(c, k) == c[k] {
    }
  }

  // ---------------------------------------------------------------------------
  // The JSON metadata of each avatar (metadata.py:41-50, 84-155)

  const BaseName := "Scrappy Squirrel #"
  const Symbol := "SSQ"
  const Description := "The most fun and bizarre squirrels of misty forest"

  /** One JSON file: the fields of BASE_JSON filled in for one row. */
  datatype Item = Item(name: string, symbol: string, description: string, image: string,
                       edition: nat, attributes: seq<(string, string)>)

  /** get_attribute_metadata's zfill_count: len(str(rows - 1)) when ZEROS_PAD is on, None
      otherwise. */
  function PadWidth(rows: nat, zerosPad: bool): (w: Option<nat>)
    ensures w.Some? <==> zerosPad
  {
    if zerosPad then Some(ImageWidth(rows)) else None
  }

  /** The number of a file: padded when a width is given, plain otherwise. */
  function Stem(idx: nat, width: Option<nat>): string {
    match width
    case Some(w) => ZFill(NatToString(idx), w)
    case None => NatToString(idx)
  }

  /** The (column, value) pairs of a row whose value is not 'none', in column order. */
  function Attributes(cols: seq<string>, row: seq<string>): seq<(string, string)>
    requires |cols| == |row|
  {
    if cols == [] then []
    else
      var n := |cols| - 1;
      var front := Attributes(cols[..n], row[..n]);
      if row[n] != "none" then front + [(cols[n], row[n])] else front
  }

  /** The JSON item of row idx. */
  function ItemFor(idx: nat, cols: seq<string>, row: seq<string>, width: Option<nat>): Item
    requires |cols| == |row|
  {
    Item(BaseName + NatToString(idx), Symbol, Description, "" + "/" + Stem(idx, width) + ".png", idx,
         Attributes(cols, row))
  }

  /** The name of the JSON file of row idx. */
  function JsonName(idx: nat, width: Option<nat>): string {
    Stem(idx, width) + ".json"
  }

  /** The loop of main over one row's values: the pairs whose value is not 'none' are appended
      in column order. */
  method RowAttributes(cols: seq<string>, row: seq<string>) returns (attrs: seq<(string, string)>)
    requires |cols| == |row|
    ensures attrs == Attributes(cols, row)
  {
    attrs := [];
    for k := 0 to |cols|
      invariant attrs == Attributes(cols[..k], row[..k])
    {
      assert cols[..k + 1][..k] == cols[..k] && row[..k + 1][..k] == row[..k];
      if row[k] != "none" {
        attrs := attrs + [(cols[k], row[k])];
      }
    }
    assert cols[..|cols|] == cols && row[..|row|] == row;
  }

  /** A pair is an attribute exactly when it is a column with its value and the value is not
      'none'. */
  lemma {:induction false} AttributesMeaning(cols: seq<string>, row: seq<string>, c: string, v: string)
    requires |cols| == |row|
    ensures (c, v) in Attributes(cols, row) <==> v != "none" && exists k :: 0 <= k < |cols| && cols[k] == c && row[k] == v
  {
    if cols != [] {
      var n := |cols| - 1;
      AttributesMeaning(cols[..n], row[..n], c, v);
      if exists k :: 0 <= k < |cols| && cols[k] == c && row[k] == v {
        var k :| 0 <= k < |cols| && cols[k] == c && row[k] == v;
        if k < n {
          assert cols[..n][k] == c && row[..n][k] == v;
        }
      }
    }
  }

  /** The attributes keep the order of the columns: with distinct column names, an attribute
      comes before another exactly when its column does. */
  lemma {:induction false} AttributesOrder(cols: seq<string>, row: seq<string>)
    requires |cols| == |row|
    ensures |Attributes(cols, row)| <= |cols|
    ensures forall i :: 0 <= i < |Attributes(cols, row)| ==> Attributes(cols, row)[i].0 in cols
    ensures Distinct(cols) ==> forall i, j :: 0 <= i < j < |Attributes(cols, row)| ==>
      FirstIndex(cols, Attributes(cols, row)[i].0) < FirstIndex(cols, Attributes(cols, row)[j].0)
  {
    AttributesWithin(cols, row);
    if cols != [] && Distinct(cols) {
      var n := |cols| - 1;
      AttributesOrder(cols[..n], row[..n]);
      assert Distinct(cols[..n]);
      assert cols == cols[..n] + [cols[n]];
      OrderSnoc(cols[..n], cols[n], Attributes(cols[..n], row[..n]), row[n]);
    }
  }

  lemma {:induction false} AttributesWithin(cols: seq<string>, row: seq<string>)
    requires |cols| == |row|
    ensures |Attributes(cols, row)| <= |cols|
    ensures forall i :: 0 <= i < |Attributes(cols, row)| ==> Attributes(cols, row)[i].0 in cols
  {
    if cols != [] {
      var n := |cols| - 1;
      AttributesWithin(cols[..n], row[..n]);
      assert forall c :: c in cols[..n] ==> c in cols;
    }
  }

  /** Appending a new last column keeps the pairs in column order. */
  lemma OrderSnoc(front: seq<string>, c: string, attrs: seq<(string, string)>, v: string)
    requires Distinct(front + [c])
    requires forall i :: 0 <= i < |attrs| ==> attrs[i].0 in front
    requires forall i, j :: 0 <= i < j < |attrs| ==> FirstIndex(front, attrs[i].0) < FirstIndex(front, attrs[j].0)
    ensures var next := if v != "none" then attrs + [(c, v)] else attrs;
      forall i, j :: 0 <= i < j < |next| ==> FirstIndex(front + [c], next[i].0) < FirstIndex(front + [c], next[j].0)
  {
    var cols := front + [c];
    forall i | 0 <= i < |attrs| ensures FirstIndex(cols, attrs[i].0) == FirstIndex(front, attrs[i].0) {
      FirstIndexAppend(front, [c], attrs[i].0);
    }
    if v != "none" {
      DistinctLast(front, c);
      FirstIndexAppend(front, [c], c);
    }
  }

  /** main: one JSON file per row, named and numbered after the row's index. */
  method GenerateMetadata(cols: seq<string>, rows: seq<seq<string>>, zerosPad: bool) returns (files: seq<(string, Item)>)
    requires forall i :: 0 <= i < |rows| ==> |rows[i]| == |cols|
    ensures |files| == |rows|
    ensures forall i :: 0 <= i < |rows| ==>
      files[i] == (JsonName(i, PadWidth(|rows|, zerosPad)), ItemFor(i, cols, rows[i], PadWidth(|rows|, zerosPad)))
  {
    var width := PadWidth(|rows|, zerosPad);
    files := [];
    for idx := 0 to |rows|
      invariant |files| == idx
      invariant forall i :: 0 <= i < idx ==> files[i] == (JsonName(i, width), ItemFor(i, cols, rows[i], width))
    {
      var attrs := RowAttributes(cols, rows[idx]);
      var item := Item(BaseName + NatToString(idx), Symbol, Description,
                       "" + "/" + Stem(idx, width) + ".png", idx, attrs);
      files := files + [(JsonName(idx, width), item)];
    }
  }

  /** The JSON files of a table with `count` rows point at the images generate_images wrote for
      that count: the padded name when ZEROS_PAD is on, the unpadded one otherwise; and no two
      rows share a JSON file. */
  lemma StemsCoincide(i: nat, count: nat, zerosPad: bool)
    requires i < count
    ensures zerosPad ==> Stem(i, PadWidth(count, zerosPad)) + ".png" == ImageName(i, count)
    ensures !zerosPad ==> Stem(i, PadWidth(count, zerosPad)) + ".png" == Unpadded(ImageName(i, count))
    ensures forall j :: 0 <= j < count && j != i ==> JsonName(i, PadWidth(count, zerosPad)) != JsonName(j, PadWidth(count, zerosPad))
  {
    UnpaddedImageName(i, count);
    forall j | 0 <= j < count && j != i
      ensures JsonName(i, PadWidth(count, zerosPad)) != JsonName(j, PadWidth(count, zerosPad))
    {
      ImageNamesDistinct(i, j, count);
      UnpaddedImageName(j, count);
      var w := PadWidth(count, zerosPad);
      AppendCancel(Stem(i, w), Stem(j, w), ".json");
    }
  }
}
