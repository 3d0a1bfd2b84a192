/**
 * The two dataset readers. A file is the sequence of its bytes; opening it is
 * not modelled, and a fatal exit is an `Err` result.
 */
module Reader {
  import opened Wrappers
  import opened Idx
  import opened Encoder

  datatype Error =
    | Corrupt        // the magic number matches in neither byte order
    | BadDimensions  // the image header does not describe 28 x 28 images

  const EXPECTED_ROWS: int := 28
  const EXPECTED_COLS: int := 28
  const IMAGE_SIZE: nat := 28 * 28

  /** The header words of a label file (magic, count), if it is accepted. */
  function LabelHeader(host: Endian, file: seq<Byte>): (h: Option<seq<int>>)
    requires 8 <= |file|
    ensures h.Some? <==> Word(host, file[..4]) == LABEL_MAGIC || Word(Flip(host), file[..4]) == LABEL_MAGIC
    ensures h.Some? ==> |h.value| == 2 && h.value[0] == LABEL_MAGIC
  {
    ReverseFlipsOrder(host, file[..4]);
    DecodeHeader(host, file, 2, LABEL_MAGIC)
  }

  /** The header words of an image file (magic, count, rows, columns), if it is accepted. */
  function ImageHeader(host: Endian, file: seq<Byte>): (h: Option<seq<int>>)
    requires 16 <= |file|
    ensures h.Some? <==> Word(host, file[..4]) == IMAGE_MAGIC || Word(Flip(host), file[..4]) == IMAGE_MAGIC
    ensures h.Some? ==> |h.value| == 4 && h.value[0] == IMAGE_MAGIC
  {
    ReverseFlipsOrder(host, file[..4]);
    DecodeHeader(host, file, 4, IMAGE_MAGIC)
  }

  /** How many times a loop `for (int i = 0; i < count; ++i)` runs. */
  function Iterations(count: int): (n: nat)
    ensures count <= 0 ==> n == 0
    ensures count >= 0 ==> n == count
  {
    if count < 0 then 0 else count
  }

  /** The number of labels an accepted label file announces: the trip count of the label loop. */
  function LabelCount(host: Endian, file: seq<Byte>): nat
    requires 8 <= |file| && LabelHeader(host, file).Some?
  {
    Iterations(LabelHeader(host, file).value[1])
  }

  /** The number of images an accepted image file announces: the trip count of the image loop. */
  function ImageCount(host: Endian, file: seq<Byte>): nat
    requires 16 <= |file| && ImageHeader(host, file).Some?
  {
    Iterations(ImageHeader(host, file).value[1])
  }

  /** The label file holds a whole header and every label its header announces. */
  predicate LabelsFit(host: Endian, file: seq<Byte>)
  {
    && 8 <= |file|
    && (LabelHeader(host, file).Some? ==> 8 + LabelCount(host, file) <= |file|)
  }

  /** The image file holds a whole header and every image its header announces. */
  predicate ImagesFit(host: Endian, file: seq<Byte>)
  {
    && 16 <= |file|
    && (ImagesAccepted(host, file) ==>
          16 + ImageCount(host, file) * IMAGE_SIZE <= |file|)
  }

  /** An image file that the image reader accepts. */
  predicate ImagesAccepted(host: Endian, file: seq<Byte>)
    requires 16 <= |file|
  {
    && ImageHeader(host, file).Some?
    && ImageHeader(host, file).value[2] == EXPECTED_ROWS
    && ImageHeader(host, file).value[3] == EXPECTED_COLS
  }

  /** In an accepted image file, `rows * cols` is `IMAGE_SIZE`: the image size the reader uses. */
  lemma AcceptedImageSize(host: Endian, file: seq<Byte>)
    requires 16 <= |file| && ImagesAccepted(host, file)
    ensures ImageHeader(host, file).value[2] * ImageHeader(host, file).value[3] == IMAGE_SIZE
  {
  }

  /** The raw pixels of image `i`: the `IMAGE_SIZE` bytes after the header and the `i` images before it. */
  function ImageBytes(file: seq<Byte>, i: nat): (raw: seq<Byte>)
    requires 16 + (i + 1) * IMAGE_SIZE <= |file|
    ensures |raw| == IMAGE_SIZE
  {
    file[16 + i * IMAGE_SIZE .. 16 + (i + 1) * IMAGE_SIZE]
  }

  /** Each of `images` is the encoding of the raw pixels at its own place in `file`, in order. */
  predicate EncodesImages(file: seq<Byte>, images: seq<seq<nat>>)
  {
    forall i :: 0 <= i < |images| ==>
      16 + (i + 1) * IMAGE_SIZE <= |file| && images[i] == Encoding(ImageBytes(file, i))
  }

  /** The labels an accepted label file holds: one byte each, after the header. */
  function DecodedLabels(host: Endian, file: seq<Byte>): (labels: seq<nat>)
    requires LabelsFit(host, file) && LabelHeader(host, file).Some?
    ensures |labels| == LabelCount(host, file)
  {
    var n := LabelCount(host, file);
    seq(n, i requires 0 <= i < n => file[8 + i] as nat)
  }

  /** The images an accepted image file holds, each as the encoding of its raw pixels. */
  function DecodedImages(host: Endian, file: seq<Byte>): (images: seq<seq<nat>>)
    requires ImagesFit(host, file) && ImagesAccepted(host, file)
    ensures |images| == ImageCount(host, file)
  {
    var n := ImageCount(host, file);
    seq(n, i requires 0 <= i < n => ImageWithin(i, n, |file|); Encoding(ImageBytes(file, i)))
  }

  /**
   * The header step of the label reader: read magic and count in host order
   * and, when the magic does not match, byte-reverse both.
   */
  method ReadLabelHeader(host: Endian, file: seq<Byte>) returns (magic: int, count: int)
    requires 8 <= |file|
    ensures magic == LABEL_MAGIC <==> LabelHeader(host, file).Some?
    ensures magic == LABEL_MAGIC ==> count == LabelHeader(host, file).value[1]
  {
    magic := Word(host, file[0..4]);
    count := Word(host, file[4..8]);
    if magic != LABEL_MAGIC {
      magic := Word(host, Reverse(file[0..4]));
      count := Word(host, Reverse(file[4..8]));
    }
    assert file[0..4] == file[..4];
    if magic == LABEL_MAGIC {
      assert file[4..8] == FieldBytes(file, 1);
      HeaderWords(host, file, 2, LABEL_MAGIC, 1);
    }
  }

  /** Reads a label file: the header, then one byte per label, in file order. */
  method ReadLabels(host: Endian, file: seq<Byte>) returns (r: Result<seq<nat>, Error>)
    requires LabelsFit(host, file)
    ensures r.Err? <==> LabelHeader(host, file).None?
    ensures r.Err? ==> r.error == Corrupt
    ensures r.Ok? ==> |r.value| == LabelCount(host, file)
    ensures r.Ok? ==> forall i :: 0 <= i < |r.value| ==> r.value[i] == file[8 + i] as nat
    ensures r.Ok? ==> r.value == DecodedLabels(host, file)
  {
    var magic, count := ReadLabelHeader(host, file);
    if magic != LABEL_MAGIC {
      return Err(Corrupt);
    }
    var retval := ReadLabelBytes(file, count);
    assert retval == DecodedLabels(host, file);
    return Ok(retval);
  }

  /** The label loop of the label reader: one byte per label, `count` times, after the header. */
  method ReadLabelBytes(file: seq<Byte>, count: int) returns (labels: seq<nat>)
    requires 8 + Iterations(count) <= |file|
    ensures |labels| == Iterations(count)
    ensures forall i :: 0 <= i < |labels| ==> labels[i] == file[8 + i] as nat
  {
    labels := [];
    var i := 0;
    while i < count
      invariant 0 <= i <= Iterations(count)
      invariant |labels| == i
      invariant forall j :: 0 <= j < i ==> labels[j] == file[8 + j] as nat
    {
      var labelByte := file[8 + i];
      labels := labels + [labelByte as nat];
      i := i + 1;
    }
  }

  /**
   * The header step of the image reader: read magic, count, rows and columns
   * in host order and, when the magic does not match, byte-reverse all four.
   */
  method ReadImageHeader(host: Endian, file: seq<Byte>) returns (magic: int, count: int, rows: int, cols: int)
    requires 16 <= |file|
    ensures magic == IMAGE_MAGIC <==> ImageHeader(host, file).Some?
    ensures magic == IMAGE_MAGIC ==>
              var h := ImageHeader(host, file).value; count == h[1] && rows == h[2] && cols == h[3]
  {
    magic := Word(host, file[0..4]);
    count := Word(host, file[4..8]);
    rows := Word(host, file[8..12]);
    cols := Word(host, file[12..16]);
    if magic != IMAGE_MAGIC {
      magic := Word(host, Reverse(file[0..4]));
      count := Word(host, Reverse(file[4..8]));
      rows := Word(host, Reverse(file[8..12]));
      cols := Word(host, Reverse(file[12..16]));
    }
    assert file[0..4] == file[..4];
    if magic == IMAGE_MAGIC {
      assert file[4..8] == FieldBytes(file, 1) && file[8..12] == FieldBytes(file, 2) && file[12..16] == FieldBytes(file, 3);
      HeaderWords(host, file, 4, IMAGE_MAGIC, 1);
      HeaderWords(host, file, 4, IMAGE_MAGIC, 2);
      HeaderWords(host, file, 4, IMAGE_MAGIC, 3);
    }
  }

  /** Reads an image file: the header, then every image, each encoded into its two channels. */
  method ReadImages(host: Endian, file: seq<Byte>) returns (r: Result<seq<seq<nat>>, Error>)
    requires ImagesFit(host, file)
    ensures r.Ok? <==> ImagesAccepted(host, file)
    ensures r.Err? ==> r.error == if ImageHeader(host, file).None? then Corrupt else BadDimensions
    ensures r.Ok? ==> |r.value| == ImageCount(host, file)
    ensures r.Ok? ==> EncodesImages(file, r.value)
    ensures r.Ok? ==> r.value == DecodedImages(host, file)
  {
    var magic, count, rows, cols := ReadImageHeader(host, file);
    if magic != IMAGE_MAGIC {
      return Err(Corrupt);
    }
    if rows != EXPECTED_ROWS || cols != EXPECTED_COLS {
      return Err(BadDimensions);
    }
    assert ImagesAccepted(host, file) && count == ImageHeader(host, file).value[1];
    var retval := ReadPixels(file, count);
    assert |retval| == ImageCount(host, file);
    PixelsDecoded(host, file, retval);
    return Ok(retval);
  }

  /** The images the image loop yields are those `DecodedImages` describes. */
  lemma PixelsDecoded(host: Endian, file: seq<Byte>, images: seq<seq<nat>>)
    requires ImagesFit(host, file) && ImagesAccepted(host, file)
    requires |images| == ImageCount(host, file)
    requires EncodesImages(file, images)
    ensures images == DecodedImages(host, file)
  {
    var decoded := DecodedImages(host, file);
    assert forall i :: 0 <= i < |images| ==> images[i] == decoded[i];
  }

  /**
   * The image loop of the image reader: for each of `count` images, take its
   * raw bytes and keep their encoding.
   */
  method ReadPixels(file: seq<Byte>, count: int) returns (images: seq<seq<nat>>)
    requires 16 + Iterations(count) * IMAGE_SIZE <= |file|
    ensures |images| == Iterations(count)
    ensures EncodesImages(file, images)
  {
    images := [];
    var i := 0;
    while i < count
      invariant 0 <= i <= Iterations(count)
      invariant |images| == i
      invariant EncodesImages(file, images)
    {
      assert 16 + (i + 1) * IMAGE_SIZE <= 16 + Iterations(count) * IMAGE_SIZE;
      var dataRaw := file[16 + i * IMAGE_SIZE .. 16 + (i + 1) * IMAGE_SIZE];
      var data := EncodeImage(dataRaw);
      images := images + [data];
      i := i + 1;
    }
  }

  /** A label file and its header-swapped twin are read alike: both rejected, or both give the same labels. */
  lemma LabelsSwapInvariant(host: Endian, file: seq<Byte>)
    requires LabelsFit(host, file)
    ensures LabelsFit(host, SwapHeader(file, 2))
    ensures LabelHeader(host, SwapHeader(file, 2)) == LabelHeader(host, file)
    ensures LabelHeader(host, file).Some? ==> DecodedLabels(host, SwapHeader(file, 2)) == DecodedLabels(host, file)
  {
    var s := SwapHeader(file, 2);
    HeaderSwapInvariant(host, file, 2, LABEL_MAGIC);
    if LabelHeader(host, file).Some? {
      forall j | 8 <= j < |file|
        ensures s[j] == file[j]
      {
        assert s[8..][j - 8] == file[8..][j - 8];
      }
    }
  }

  /** An image file and its header-swapped twin are read alike: both rejected, or both give the same images. */
  lemma ImagesSwapInvariant(host: Endian, file: seq<Byte>)
    requires ImagesFit(host, file)
    ensures ImagesFit(host, SwapHeader(file, 4))
    ensures ImageHeader(host, SwapHeader(file, 4)) == ImageHeader(host, file)
    ensures ImagesAccepted(host, file) ==> DecodedImages(host, SwapHeader(file, 4)) == DecodedImages(host, file)
  {
    var s := SwapHeader(file, 4);
    HeaderSwapInvariant(host, file, 4, IMAGE_MAGIC);
    assert ImageHeader(host, s) == ImageHeader(host, file);
    assert ImagesAccepted(host, s) == ImagesAccepted(host, file);
    if ImagesAccepted(host, file) {
      var n := ImageCount(host, file);
      forall i | 0 <= i < n
        ensures 16 + (i + 1) * IMAGE_SIZE <= |file| && ImageBytes(s, i) == ImageBytes(file, i)
      {
        ImageWithin(i, n, |file|);
        SamePayloadSameImage(s, file, i);
      }
    }
  }

  /** Image `i` of `n` lies inside a file that holds all `n` images. */
  lemma ImageWithin(i: nat, n: nat, size: nat)
    requires i < n && 16 + n * IMAGE_SIZE <= size
    ensures 16 + (i + 1) * IMAGE_SIZE <= size
  {
    assert (i + 1) * IMAGE_SIZE <= n * IMAGE_SIZE;
  }

  /** Two files that agree after their headers hold the same raw image `i`. */
  lemma SamePayloadSameImage(s: seq<Byte>, file: seq<Byte>, i: nat)
    requires |s| == |file| && 16 + (i + 1) * IMAGE_SIZE <= |file|
    requires s[16..] == file[16..]
    ensures ImageBytes(s, i) == ImageBytes(file, i)
  {
    var lo := 16 + i * IMAGE_SIZE;
    assert forall k :: 0 <= k < IMAGE_SIZE ==> ImageBytes(s, i)[k] == s[16..][lo - 16 + k] == file[16..][lo - 16 + k] == ImageBytes(file, i)[k];
  }

  /** A canonical label file announcing 3 labels: 5, 2, 5. */
  const SAMPLE_LABEL_FILE: seq<Byte> := [0x00, 0x00, 0x08, 0x01, 0x00, 0x00, 0x00, 0x03, 5, 2, 5]

  /** A canonical image file header announcing one 2 x 2 image, followed by its pixels. */
  const SAMPLE_IMAGE_FILE: seq<Byte> := [0, 0, 8, 3, 0, 0, 0, 1, 0, 0, 0, 2, 0, 0, 0, 2, 0, 255, 128, 50]

  /** Either host decodes the sample label header as the magic number and a count of 3. */
  lemma SampleLabelHeader(host: Endian)
    ensures LabelHeader(host, SAMPLE_LABEL_FILE) == Some([LABEL_MAGIC, 3])
  {
    var file := SAMPLE_LABEL_FILE;
    assert file[..4] == [0x00, 0x00, 0x08, 0x01];
    assert FieldBytes(file, 1) == file[4..8] == [0x00, 0x00, 0x00, 0x03];
    assert Word(Big, file[..4]) == LABEL_MAGIC && Word(Big, FieldBytes(file, 1)) == 3;
    HeaderOneOrder(Big, file, 2, LABEL_MAGIC);
    assert Fields(Big, file, 2) == [LABEL_MAGIC, 3];
    HeaderHostIndependent(file, 2, LABEL_MAGIC);
  }

  /** The sample label file reads as its three labels on either host. */
  method ReadLabelsExample(host: Endian) returns (r: Result<seq<nat>, Error>)
    ensures r == Ok([5, 2, 5])
  {
    SampleLabelHeader(host);
    r := ReadLabels(host, SAMPLE_LABEL_FILE);
    assert r.value == [SAMPLE_LABEL_FILE[8] as nat, SAMPLE_LABEL_FILE[9] as nat, SAMPLE_LABEL_FILE[10] as nat];
  }

  /** Either host decodes the sample image header as magic, 1 image, 2 rows, 2 columns. */
  lemma SampleImageHeader(host: Endian)
    ensures ImageHeader(host, SAMPLE_IMAGE_FILE) == Some([IMAGE_MAGIC, 1, 2, 2])
  {
    var file := SAMPLE_IMAGE_FILE;
    assert file[..4] == [0, 0, 8, 3];
    assert FieldBytes(file, 1) == file[4..8] == [0, 0, 0, 1];
    assert FieldBytes(file, 2) == file[8..12] == [0, 0, 0, 2];
    assert FieldBytes(file, 3) == file[12..16] == [0, 0, 0, 2];
    assert Word(Big, file[..4]) == IMAGE_MAGIC && Word(Big, FieldBytes(file, 1)) == 1;
    assert Word(Big, FieldBytes(file, 2)) == 2 && Word(Big, FieldBytes(file, 3)) == 2;
    HeaderOneOrder(Big, file, 4, IMAGE_MAGIC);
    assert Fields(Big, file, 4) == [IMAGE_MAGIC, 1, 2, 2];
    HeaderHostIndependent(file, 4, IMAGE_MAGIC);
  }

  /** A well-formed header for one 2 x 2 image is rejected: only 28 x 28 images are read. */
  method ReadImagesExample(host: Endian) returns (r: Result<seq<seq<nat>>, Error>)
    ensures r == Err(BadDimensions)
  {
    SampleImageHeader(host);
    r := ReadImages(host, SAMPLE_IMAGE_FILE);
  }
}
