/** Run-length encoding of one scanline: runs of equal pixels, of at most 256, each as one entry with its
    length less one. */
module RunLength {

  datatype Pixel = Pixel(r: real, g: real, b: real)

  /** Channels and counts are bytes. */
  datatype Color = Color(r: nat, g: nat, b: nat)

  datatype Entry = Entry(color: Color, count: nat)

  /** The cast from a real to an integer drops the fraction, towards zero. */
  function Truncate(v: real): int {
    if v < 0.0 then -((-v).Floor) else v.Floor
  }

  /** (U8)((INT)(v * 255.0)) */
  function Channel(v: real): (c: nat)
    ensures c < 256
  {
    Truncate(v * 255.0) % 256
  }

  function Quantise(p: Pixel): Color {
    Color(Channel(p.r), Channel(p.g), Channel(p.b))
  }

  /** Pixels made from bytes come back as those bytes, channel by channel. */
  lemma BytesSurvive(r: nat, g: nat, b: nat)
    requires r < 256 && g < 256 && b < 256
    ensures Quantise(Pixel(r as real / 255.0, g as real / 255.0, b as real / 255.0)) == Color(r, g, b)
  {
    ByteSurvives(r);
    ByteSurvives(g);
    ByteSurvives(b);
  }

  lemma ByteSurvives(c: nat)
    requires c < 256
    ensures Channel(c as real / 255.0) == c
  {
    assert c as real / 255.0 * 255.0 == c as real;
  }

  function Scanline(fb: seq<Pixel>): (s: seq<Color>)
    ensures |s| == |fb| && forall i :: 0 <= i < |fb| ==> s[i] == Quantise(fb[i])
  {
    seq(|fb|, i requires 0 <= i < |fb| => Quantise(fb[i]))
  }

  function Run(c: Color, n: nat): (s: seq<Color>)
    ensures |s| == n && forall i :: 0 <= i < n ==> s[i] == c
  {
    seq(n, i => c)
  }

  /** What a reader makes of the entries: count + 1 pixels for each. */
  function Expand(entries: seq<Entry>): seq<Color> {
    if entries == [] then []
    else
      var last := |entries| - 1;
      Expand(entries[..last]) + Run(entries[last].color, entries[last].count + 1)
  }

  predicate ByteCounts(entries: seq<Entry>) {
    forall i :: 0 <= i < |entries| ==> entries[i].count < 256
  }

  /** No run could have been longer. */
  predicate Maximal(entries: seq<Entry>) {
    forall i :: 0 <= i < |entries| - 1 ==> entries[i].color != entries[i + 1].color || entries[i].count == 255
  }

  lemma {:induction false} ExpandLength(entries: seq<Entry>)
    ensures |entries| <= |Expand(entries)|
  {
    if entries != [] {
      ExpandLength(entries[..|entries| - 1]);
    }
  }

  /** The entries written so far, the open one with the pixels it has. */
  function Written(image: seq<Entry>, rl: nat, numpixels: nat): seq<Entry>
    requires rl < |image|
  {
    image[..rl] + [Entry(image[rl].color, numpixels)]
  }

  /** What is written, with the open entry, encodes s. */
  predicate Encodes(image: seq<Entry>, rl: nat, numpixels: nat, s: seq<Color>)
    requires rl < |image|
  {
    var w := Written(image, rl, numpixels);
    Expand(w) == s && ByteCounts(w) && Maximal(w)
  }

  lemma SamePixel(image: seq<Entry>, rl: nat, numpixels: nat, s: seq<Color>)
    requires rl < |image| && Encodes(image, rl, numpixels, s) && numpixels < 255
    ensures Encodes(image, rl, numpixels + 1, s + [image[rl].color])
  {
  }

  lemma OtherPixel(image: seq<Entry>, image': seq<Entry>, rl: nat, numpixels: nat, s: seq<Color>, c: Color)
    requires rl + 1 < |image| && Encodes(image, rl, numpixels, s) && (c != image[rl].color || numpixels == 255)
    requires |image'| == |image| && image'[..rl + 1] == Written(image, rl, numpixels) && image'[rl + 1].color == c
    ensures Encodes(image', rl + 1, 0, s + [c])
  {
  }

  /** The code's loop over the scanline. The entries expand to exactly the quantised scanline; counts are
      bytes; there are at most xsize entries; and neighbours differ unless the first is full. */
  method RunLengthEncode(fb: seq<Pixel>, xsize: nat, image: array<Entry>) returns (rl: nat)
    requires 0 < xsize <= |fb| && xsize <= image.Length
    modifies image
    ensures rl < xsize
    ensures Expand(image[..rl + 1]) == Scanline(fb[..xsize]) && ByteCounts(image[..rl + 1]) && Maximal(image[..rl + 1])
  {
    rl := 0;
    var numpixels: nat := 0;
    image[0] := Entry(Quantise(fb[0]), 0);
    var x := 1;
    FirstPixel(image[..], Quantise(fb[0]));
    assert Scanline(fb[..1]) == [Quantise(fb[0])];
    while x < xsize
      invariant 1 <= x <= xsize && rl < x && numpixels < 256
      invariant Encodes(image[..], rl, numpixels, Scanline(fb[..x]))
    {
      assert Scanline(fb[..x + 1]) == Scanline(fb[..x]) + [Quantise(fb[x])];
      rl, numpixels := NextPixel(image, rl, numpixels, Quantise(fb[x]), Scanline(fb[..x]));
      x := x + 1;
    }
    ghost var written := Written(image[..], rl, numpixels);
    image[rl] := image[rl].(count := numpixels);
    assert image[..rl + 1] == written;
  }

  /** One turn of that loop. */
  method NextPixel(image: array<Entry>, rl: nat, numpixels: nat, color: Color, ghost s: seq<Color>)
        returns (rl': nat, numpixels': nat)
    requires rl + 1 < image.Length && numpixels < 256 && Encodes(image[..], rl, numpixels, s)
    modifies image
    ensures rl' <= rl + 1 && numpixels' < 256 && Encodes(image[..], rl', numpixels', s + [color])
  {
    ghost var before := image[..];
    rl' := rl;
    if color == image[rl].color && numpixels < 255 {
      SamePixel(image[..], rl, numpixels, s);
      numpixels' := numpixels + 1;
    } else {
      image[rl] := image[rl].(count := numpixels);
      rl' := rl + 1;
      image[rl'] := image[rl'].(color := color);
      OtherPixel(before, image[..], rl, numpixels, s, color);
      numpixels' := 0;
    }
  }

  lemma FirstPixel(image: seq<Entry>, c: Color)
    requires image != [] && image[0] == Entry(c, 0)
    ensures Encodes(image, 0, 0, [c])
  {
  }

  // --------------------------------------------------------------------- no encoding is shorter

  /** The first pixel run of an encoding. */
  lemma {:induction false} ExpandFirst(entries: seq<Entry>)
    requires entries != []
    ensures Expand(entries) == Run(entries[0].color, entries[0].count + 1) + Expand(entries[1..])
  {
    var last := |entries| - 1;
    if last == 0 {
      assert entries[..0] == [] && entries[1..] == [];
    } else {
      ExpandFirst(entries[..last]);
      assert entries[..last][1..] == entries[1..][..last - 1];
    }
  }

  /** An encoding with its first m pixels left out; no entry is added. */
  function Without(entries: seq<Entry>, m: nat): (r: seq<Entry>)
    requires ByteCounts(entries)
    ensures |r| <= |entries| && ByteCounts(r)
    decreases |entries|
  {
    if entries == [] || m == 0 then entries
    else if m <= entries[0].count then [entries[0].(count := entries[0].count - m)] + entries[1..]
    else Without(entries[1..], m - (entries[0].count + 1))
  }

  lemma {:induction false} WithoutExpands(entries: seq<Entry>, m: nat)
    requires ByteCounts(entries) && m <= |Expand(entries)|
    ensures Expand(Without(entries, m)) == Expand(entries)[m..]
    decreases |entries|
  {
    if entries != [] && m > 0 {
      ExpandFirst(entries);
      if m <= entries[0].count {
        assert entries == [entries[0]] + entries[1..];
        ShortenFirst(entries[0], entries[1..], m);
      } else {
        var rest, n := entries[1..], entries[0].count + 1;
        WithoutExpands(rest, m - n);
        assert Expand(entries)[m..] == Expand(rest)[m - n..];
      }
    }
  }

  lemma {:induction false} ShortenFirst(e: Entry, rest: seq<Entry>, m: nat)
    requires m <= e.count
    ensures m <= |Expand([e] + rest)|
    ensures Expand([e.(count := e.count - m)] + rest) == Expand([e] + rest)[m..]
  {
    FrontForm(e, rest);
    FrontForm(e.(count := e.count - m), rest);
    DropFromRun(e.color, e.count + 1, m, Expand(rest));
  }

  lemma {:induction false} FrontForm(e: Entry, rest: seq<Entry>)
    ensures Expand([e] + rest) == Run(e.color, e.count + 1) + Expand(rest)
  {
    ExpandFirst([e] + rest);
    assert ([e] + rest)[1..] == rest;
  }

  lemma DropFromRun(c: Color, n: nat, m: nat, t: seq<Color>)
    requires m <= n
    ensures (Run(c, n) + t)[m..] == Run(c, n - m) + t
  {
  }

  lemma {:induction false} FirstRunAt(entries: seq<Entry>, i: nat)
    requires entries != [] && i <= entries[0].count
    ensures i < |Expand(entries)| && Expand(entries)[i] == entries[0].color
  {
    ExpandFirst(entries);
  }

  /** The pixel after the first run, if there is one, starts the second. */
  lemma {:induction false} AfterFirstRun(entries: seq<Entry>)
    requires entries != []
    ensures |entries| == 1 ==> |Expand(entries)| == entries[0].count + 1
    ensures |entries| > 1 ==>
            |Expand(entries)| > entries[0].count + 1 && Expand(entries)[entries[0].count + 1] == entries[1].color
  {
    ExpandFirst(entries);
    if |entries| > 1 {
      FirstRunAt(entries[1..], 0);
    } else {
      assert entries[1..] == [];
    }
  }

  /** The first run of a maximal encoding is at least as long as that of any other encoding, which cannot
      go on where the maximal one ends. */
  lemma {:induction false} FirstRunLongest(a: seq<Entry>, b: seq<Entry>)
    requires a != [] && b != [] && ByteCounts(b) && Maximal(a) && Expand(a) == Expand(b)
    ensures b[0].count <= a[0].count
  {
    FirstRunAt(a, 0);
    FirstRunAt(b, 0);
    AfterFirstRun(a);
    if |a| > 1 {
      assert a[0].color != a[0 + 1].color || a[0].count == 255;
    }
    if b[0].count > a[0].count {
      FirstRunAt(b, a[0].count + 1);
      assert false;
    }
  }

  /** No encoding of the same scanline has fewer entries than a maximal one. */
  lemma {:induction false} MaximalIsShortest(a: seq<Entry>, b: seq<Entry>)
    requires ByteCounts(a) && ByteCounts(b) && Maximal(a) && Expand(a) == Expand(b)
    ensures |a| <= |b|
    decreases |a|
  {
    ExpandLength(a);
    if a != [] && b != [] {
      FirstRunLongest(a, b);
      ExpandFirst(a);
      ExpandFirst(b);
      var extra := a[0].count - b[0].count;
      var rest := Without(b[1..], extra);
      assert Expand(a)[a[0].count + 1..] == Expand(a[1..]);
      assert Expand(b)[b[0].count + 1..] == Expand(b[1..]);
      assert Expand(b)[a[0].count + 1..] == Expand(b[1..])[extra..];
      WithoutExpands(b[1..], extra);
      assert Maximal(a[1..]);
      MaximalIsShortest(a[1..], rest);
    }
  }
}
