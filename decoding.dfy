/** Barcode reading for one command row (lines 163-220): decode the whole image, fall back to
    the tiles when that finds nothing, and keep each decoded text once, first occurrence first. */
module Decoding {
  import opened Wrappers
  import opened Int32
  import opened Imaging
  import opened Tiling

  /** One ZXing result: its text, its format's name and its NumBits. */
  datatype Symbol = Symbol(text: string, format: string, numBits: int)

  /** What the reader returned, with a null result read as no symbols
      (the source tests `result != null && result.Length > 0`). */
  function Found(result: Option<seq<Symbol>>): seq<Symbol> {
    if result.Some? then result.value else []
  }

  function Texts(symbols: seq<Symbol>): seq<string> {
    seq(|symbols|, k requires 0 <= k < |symbols| => symbols[k].text)
  }

  /** The symbols of `found` whose text is neither in `seen` nor carried by an earlier
      symbol of `found`, in order: what the `strings.Contains` test lets through. */
  function Fresh(seen: seq<string>, found: seq<Symbol>): seq<Symbol>
    decreases |found|
  {
    if found == [] then []
    else
      var prior := Fresh(seen, found[..|found| - 1]);
      var last := found[|found| - 1];
      if last.text in seen + Texts(prior) then prior else prior + [last]
  }

  /** The `foreach (var barcode in result)` loop: a symbol is kept, and its text added to
      `strings`, only when `strings` does not hold its text yet. */
  method AddUnseen(strings: seq<string>, found: seq<Symbol>) returns (strings': seq<string>, added: seq<Symbol>)
    ensures added == Fresh(strings, found)
    ensures strings' == strings + Texts(added)
  {
    strings', added := strings, [];
    for k := 0 to |found|
      invariant added == Fresh(strings, found[..k])
      invariant strings' == strings + Texts(added)
    {
      assert found[..k + 1][..k] == found[..k];
      if found[k].text !in strings' {
        assert Texts(added + [found[k]]) == Texts(added) + [found[k].text];
        strings' := strings' + [found[k].text];
        added := added + [found[k]];
      }
    }
    assert found[..|found|] == found;
  }

  /** All symbols the reader finds in the tiles, tile after tile. */
  function TileSymbols(tiles: seq<Bitmap>, decode: Bitmap -> Option<seq<Symbol>>): seq<Symbol>
    decreases |tiles|
  {
    if tiles == [] then []
    else TileSymbols(tiles[..|tiles| - 1], decode) + Found(decode(tiles[|tiles| - 1]))
  }

  /** The symbols one row reports: the distinct texts of the whole image when it yields any,
      otherwise the distinct texts of all tiles together. */
  function BarcodeSpec(b: Bitmap, n: int32, decode: Bitmap -> Option<seq<Symbol>>): Result<seq<Symbol>> {
    var whole := Found(decode(b));
    if |whole| > 0 then Success(Fresh([], whole))
    else
      var tiles :- TileImages(b, n);
      Success(Fresh([], TileSymbols(tiles, decode)))
  }

  /** Lines 169-190 and 191-218: the whole-image pass and, only when it finds nothing,
      the tile passes. */
  method ReadBarcodes(b: Bitmap, n: int32, decode: Bitmap -> Option<seq<Symbol>>) returns (r: Result<seq<Symbol>>)
    ensures r == BarcodeSpec(b, n, decode)
  {
    var result := decode(b);
    if result.Some? && |result.value| > 0 {
      var strings, kept := AddUnseen([], result.value);
      return Success(kept);
    }
    var bitmaps :- BitmapSeperate(b, n);
    var kept := ReadTiles(bitmaps, decode);
    return Success(kept);
  }

  /** Lines 196-217: every tile is decoded in turn, and one `strings` list, shared by all
      tiles, keeps a text that several tiles show from being reported twice. */
  method ReadTiles(tiles: seq<Bitmap>, decode: Bitmap -> Option<seq<Symbol>>) returns (kept: seq<Symbol>)
    ensures kept == Fresh([], TileSymbols(tiles, decode))
  {
    var strings: seq<string> := [];
    kept := [];
    for k := 0 to |tiles|
      invariant kept == Fresh([], TileSymbols(tiles[..k], decode))
      invariant strings == Texts(kept)
    {
      assert tiles[..k + 1][..k] == tiles[..k];
      var result := decode(tiles[k]);
      assert TileSymbols(tiles[..k + 1], decode) == TileSymbols(tiles[..k], decode) + Found(result);
      FreshAppend([], TileSymbols(tiles[..k], decode), Found(result));
      assert [] + strings == strings;
      if result.Some? && |result.value| > 0 {
        var added;
        strings, added := AddUnseen(strings, result.value);
        kept := kept + added;
      }
    }
    assert tiles[..|tiles|] == tiles;
  }

  lemma TextsAppend(a: seq<Symbol>, b: seq<Symbol>)
    ensures Texts(a + b) == Texts(a) + Texts(b)
  {
  }

  /** Deduplicating a concatenation is deduplicating the first part, then the second part
      against everything seen so far: the shared `strings` list across the tile passes. */
  lemma {:induction false} FreshAppend(seen: seq<string>, a: seq<Symbol>, b: seq<Symbol>)
    ensures Fresh(seen, a + b) == Fresh(seen, a) + Fresh(seen + Texts(Fresh(seen, a)), b)
    decreases |b|
  {
    var seen' := seen + Texts(Fresh(seen, a));
    if b == [] {
      assert a + b == a;
    } else {
      var b0 := b[..|b| - 1];
      var x := b[|b| - 1];
      assert (a + b)[..|a + b| - 1] == a + b0;
      assert (a + b)[|a + b| - 1] == x;
      FreshAppend(seen, a, b0);
      TextsAppend(Fresh(seen, a), Fresh(seen', b0));
      assert seen + Texts(Fresh(seen, a + b0)) == seen' + Texts(Fresh(seen', b0));
    }
  }

  predicate Distinct(texts: seq<string>) {
    forall i, j :: 0 <= i < j < |texts| ==> texts[i] != texts[j]
  }

  /** A text is reported exactly when some symbol carries it and it was not seen before. */
  lemma {:induction false} FreshTexts(seen: seq<string>, found: seq<Symbol>, t: string)
    ensures t in Texts(Fresh(seen, found)) <==> t !in seen && t in Texts(found)
    decreases |found|
  {
    if found != [] {
      var f0 := found[..|found| - 1];
      var x := found[|found| - 1];
      var prior := Fresh(seen, f0);
      assert found == f0 + [x];
      FreshTexts(seen, f0, t);
      TextsAppend(f0, [x]);
      TextsAppend(prior, [x]);
    }
  }

  /** No text is reported twice, nor one that was already seen. */
  lemma {:induction false} FreshDistinct(seen: seq<string>, found: seq<Symbol>)
    ensures Distinct(Texts(Fresh(seen, found)))
    ensures forall t :: t in seen ==> t !in Texts(Fresh(seen, found))
    decreases |found|
  {
    if found != [] {
      var f0 := found[..|found| - 1];
      var x := found[|found| - 1];
      var prior := Fresh(seen, f0);
      FreshDistinct(seen, f0);
      TextsAppend(prior, [x]);
    }
  }

  /** Every reported symbol is the first symbol of `found` that carries its text. */
  lemma {:induction false} FreshFirstOccurrence(seen: seq<string>, found: seq<Symbol>, p: int)
    requires 0 <= p < |Fresh(seen, found)|
    ensures exists i :: 0 <= i < |found| && found[i] == Fresh(seen, found)[p] &&
                        forall j :: 0 <= j < i ==> found[j].text != found[i].text
    decreases |found|
  {
    var f0 := found[..|found| - 1];
    var x := found[|found| - 1];
    var prior := Fresh(seen, f0);
    var kept := Fresh(seen, found);
    assert kept == prior || kept == prior + [x];
    if p < |prior| {
      assert kept[p] == prior[p];
      FreshFirstOccurrence(seen, f0, p);
      var i :| 0 <= i < |f0| && f0[i] == prior[p] && forall j :: 0 <= j < i ==> f0[j].text != f0[i].text;
      assert found[i] == f0[i];
      assert forall j :: 0 <= j < i ==> found[j] == f0[j];
    } else {
      var i := |found| - 1;
      assert kept[p] == x;
      forall j | 0 <= j < i
        ensures found[j].text != x.text
      {
        assert f0[j] == found[j];
        assert Texts(f0)[j] == found[j].text;
        FreshTexts(seen, f0, found[j].text);
      }
    }
  }

  /** What one row reports: distinct texts, and exactly the texts of the whole image when it
      shows any, otherwise exactly the texts found in the tiles. */
  lemma ReadBarcodesReports(b: Bitmap, n: int32, decode: Bitmap -> Option<seq<Symbol>>, t: string)
    requires BarcodeSpec(b, n, decode).Success?
    ensures Distinct(Texts(BarcodeSpec(b, n, decode).value))
    ensures |Found(decode(b))| > 0 ==>
      (t in Texts(BarcodeSpec(b, n, decode).value) <==> t in Texts(Found(decode(b))))
    ensures |Found(decode(b))| == 0 ==>
      TileImages(b, n).Success? && (t in Texts(BarcodeSpec(b, n, decode).value) <==> t in Texts(TileSymbols(TileImages(b, n).value, decode)))
  {
    var whole := Found(decode(b));
    if |whole| > 0 {
      FreshDistinct([], whole);
      FreshTexts([], whole, t);
    } else {
      var found := TileSymbols(TileImages(b, n).value, decode);
      FreshDistinct([], found);
      FreshTexts([], found, t);
    }
  }

  /** The row fails only when the whole image shows nothing and the tiles cannot be cut. */
  lemma ReadBarcodesFails(b: Bitmap, n: int32, decode: Bitmap -> Option<seq<Symbol>>)
    ensures BarcodeSpec(b, n, decode).Failure? <==>
      |Found(decode(b))| == 0 && TileImages(b, n).Failure?
    ensures BarcodeSpec(b, n, decode).Failure? ==>
      BarcodeSpec(b, n, decode).error == TileImages(b, n).error
  {
  }

  /** Lines 173-191: when the whole image yields a symbol, no tile is examined: the outcome
      depends neither on the tile count nor on what the reader would make of any other image. */
  lemma WholeImageHitSkipsTiles(b: Bitmap, n: int32, n': int32,
                                decode: Bitmap -> Option<seq<Symbol>>, decode': Bitmap -> Option<seq<Symbol>>)
    requires decode(b) == decode'(b) && |Found(decode(b))| > 0
    ensures BarcodeSpec(b, n, decode) == BarcodeSpec(b, n', decode')
    ensures BarcodeSpec(b, n, decode).Success?
  {
  }

  /** `kept` is `found` with some symbols left out, the rest in their original order:
      `positions` says where each kept symbol sits in `found`. */
  predicate InOrder(kept: seq<Symbol>, found: seq<Symbol>, positions: seq<int>) {
    |positions| == |kept| &&
    (forall k :: 0 <= k < |kept| ==> 0 <= positions[k] < |found| && found[positions[k]] == kept[k]) &&
    (forall k, l :: 0 <= k < l < |kept| ==> positions[k] < positions[l])
  }

  /** The reported symbols keep the order in which the reader returned them. */
  lemma {:induction false} FreshInOrder(seen: seq<string>, found: seq<Symbol>)
    ensures exists positions :: InOrder(Fresh(seen, found), found, positions)
    decreases |found|
  {
    if found == [] {
      assert InOrder(Fresh(seen, found), found, []);
    } else {
      var f0 := found[..|found| - 1];
      var x := found[|found| - 1];
      var prior := Fresh(seen, f0);
      FreshInOrder(seen, f0);
      var positions :| InOrder(prior, f0, positions);
      assert found == f0 + [x];
      InOrderExtend(prior, f0, positions, x);
      if x.text in seen + Texts(prior) {
        assert InOrder(Fresh(seen, found), found, positions);
      } else {
        assert InOrder(Fresh(seen, found), found, positions + [|f0|]);
      }
    }
  }

  lemma InOrderExtend(kept: seq<Symbol>, found: seq<Symbol>, positions: seq<int>, x: Symbol)
    requires InOrder(kept, found, positions)
    ensures InOrder(kept, found + [x], positions)
    ensures InOrder(kept + [x], found + [x], positions + [|found|])
  {
    var found' := found + [x];
    forall k | 0 <= k < |kept|
      ensures found'[positions[k]] == kept[k]
    {
      assert found'[positions[k]] == found[positions[k]];
    }
  }
}
