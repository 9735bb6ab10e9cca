/**
  The GIF89a layout of a single-image file with one Graphic Control Extension,
  which is the shape of the tracker's pixel: Header (section 17 of the GIF89a
  specification), Logical Screen Descriptor (18), optional Global Color Table (19),
  Graphic Control Extension (23), Image Descriptor (20), optional Local Color
  Table (21), Table Based Image Data (22) and Trailer (27).

  `Encode` lays a structured image out as bytes and `Decode` reads it back;
  `DecodeEncode` proves the round trip for every well-formed image.
*/
module Gif {
  import opened Wrappers
  import opened Bytes

  /** "GIF89a": signature "GIF" and version "89a". */
  const Header: seq<byte> := [0x47, 0x49, 0x46, 0x38, 0x39, 0x61]
  const ExtensionIntroducer: byte := 0x21
  const GraphicControlLabel: byte := 0xF9
  const GraphicControlBlockSize: byte := 0x04
  const ImageSeparator: byte := 0x2C
  const BlockTerminator: byte := 0x00
  const Trailer: byte := 0x3B

  datatype Color = Color(red: byte, green: byte, blue: byte)

  datatype ScreenDescriptor = ScreenDescriptor(
    width: u16, height: u16,
    globalTableFlag: bool, colorResolution: u3, sortFlag: bool, globalTableSize: u3,
    backgroundIndex: byte, aspectRatio: byte)

  datatype GraphicControl = GraphicControl(
    disposal: u3, userInput: bool, transparentFlag: bool, delay: u16, transparentIndex: byte)

  datatype ImageDescriptor = ImageDescriptor(
    left: u16, top: u16, width: u16, height: u16,
    localTableFlag: bool, interlaced: bool, sortFlag: bool, localTableSize: u3)

  datatype Image = Image(
    screen: ScreenDescriptor, globalTable: seq<Color>,
    control: GraphicControl, descriptor: ImageDescriptor, localTable: seq<Color>,
    minCodeSize: byte, blocks: seq<seq<byte>>)

  /** A color table whose size field is `size` holds 2^(size+1) entries. */
  function TableLength(size: u3): nat {
    Pow2(size + 1)
  }

  predicate ValidBlocks(blocks: seq<seq<byte>>) {
    forall i :: 0 <= i < |blocks| ==> 1 <= |blocks[i]| <= 255
  }

  /** Table lengths agree with their flags and size fields; data sub-blocks are 1..255 bytes. */
  predicate Valid(img: Image) {
    && |img.globalTable| == (if img.screen.globalTableFlag then TableLength(img.screen.globalTableSize) else 0)
    && |img.localTable| == (if img.descriptor.localTableFlag then TableLength(img.descriptor.localTableSize) else 0)
    && ValidBlocks(img.blocks)
  }

  function Flag(b: bool, weight: nat): nat {
    if b then weight else 0
  }

  // ----- Packed fields -----

  /** Logical Screen Descriptor packed byte: table flag (bit 7), resolution (6-4), sort (3), size (2-0). */
  function PackScreen(d: ScreenDescriptor): (p: byte)
  {
    Flag(d.globalTableFlag, 128) + 16 * d.colorResolution + Flag(d.sortFlag, 8) + d.globalTableSize
  }

  /** Graphic Control packed byte: reserved (7-5), disposal (4-2), user input (1), transparency (0). */
  function PackControl(c: GraphicControl): (p: byte)
  {
    4 * c.disposal + Flag(c.userInput, 2) + Flag(c.transparentFlag, 1)
  }

  /** Image Descriptor packed byte: local table (7), interlace (6), sort (5), reserved (4-3), size (2-0). */
  function PackDescriptor(d: ImageDescriptor): (p: byte)
  {
    Flag(d.localTableFlag, 128) + Flag(d.interlaced, 64) + Flag(d.sortFlag, 32) + d.localTableSize
  }

  lemma PackScreenFields(d: ScreenDescriptor)
    ensures PackScreen(d) >= 128 <==> d.globalTableFlag
    ensures (PackScreen(d) / 16) % 8 == d.colorResolution
    ensures (PackScreen(d) / 8) % 2 == 1 <==> d.sortFlag
    ensures PackScreen(d) % 8 == d.globalTableSize
  {
  }

  lemma PackControlFields(c: GraphicControl)
    ensures (PackControl(c) / 4) % 8 == c.disposal
    ensures (PackControl(c) / 2) % 2 == 1 <==> c.userInput
    ensures PackControl(c) % 2 == 1 <==> c.transparentFlag
    ensures PackControl(c) < 32
  {
  }

  lemma PackDescriptorFields(d: ImageDescriptor)
    ensures PackDescriptor(d) >= 128 <==> d.localTableFlag
    ensures (PackDescriptor(d) / 64) % 2 == 1 <==> d.interlaced
    ensures (PackDescriptor(d) / 32) % 2 == 1 <==> d.sortFlag
    ensures PackDescriptor(d) % 8 == d.localTableSize
  {
  }

  // ----- Encoding -----

  function EncodeScreen(d: ScreenDescriptor): (bs: seq<byte>)
    ensures |bs| == 7
  {
    [Lo(d.width), Hi(d.width), Lo(d.height), Hi(d.height), PackScreen(d), d.backgroundIndex, d.aspectRatio]
  }

  function EncodeColors(cs: seq<Color>): (bs: seq<byte>)
    ensures |bs| == 3 * |cs|
  {
    if |cs| == 0 then [] else [cs[0].red, cs[0].green, cs[0].blue] + EncodeColors(cs[1..])
  }

  function EncodeControl(c: GraphicControl): (bs: seq<byte>)
    ensures |bs| == 8
  {
    [ExtensionIntroducer, GraphicControlLabel, GraphicControlBlockSize, PackControl(c),
     Lo(c.delay), Hi(c.delay), c.transparentIndex, BlockTerminator]
  }

  function EncodeDescriptor(d: ImageDescriptor): (bs: seq<byte>)
    ensures |bs| == 10
  {
    [ImageSeparator, Lo(d.left), Hi(d.left), Lo(d.top), Hi(d.top),
     Lo(d.width), Hi(d.width), Lo(d.height), Hi(d.height), PackDescriptor(d)]
  }

  /** Data sub-blocks, each preceded by its length, closed by a zero-length block. */
  function EncodeBlocks(blocks: seq<seq<byte>>): (bs: seq<byte>)
    requires ValidBlocks(blocks)
    ensures |bs| >= 1 && bs[|bs| - 1] == BlockTerminator
  {
    if |blocks| == 0 then [BlockTerminator]
    else [|blocks[0]|] + blocks[0] + EncodeBlocks(blocks[1..])
  }

  function Encode(img: Image): seq<byte>
    requires Valid(img)
  {
    Header + (EncodeScreen(img.screen) + (EncodeColors(img.globalTable) + (EncodeControl(img.control)
      + (EncodeDescriptor(img.descriptor) + (EncodeColors(img.localTable)
      + ([img.minCodeSize] + (EncodeBlocks(img.blocks) + [Trailer])))))))
  }

  // ----- Decoding -----

  function DecodeScreen(s: seq<byte>): (r: Option<(ScreenDescriptor, seq<byte>)>)
    ensures r.Some? ==> |s| >= 7 && r.value.1 == s[7..]
  {
    if |s| < 7 then None
    else
      var p := s[4];
      Some((ScreenDescriptor(FromLittleEndian16(s[0], s[1]), FromLittleEndian16(s[2], s[3]),
                             p >= 128, (p / 16) % 8, (p / 8) % 2 == 1, p % 8, s[5], s[6]),
            s[7..]))
  }

  function DecodeColors(s: seq<byte>, n: nat): (r: Option<(seq<Color>, seq<byte>)>)
    ensures r.Some? ==> |r.value.0| == n
    decreases n
  {
    if n == 0 then Some(([], s))
    else if |s| < 3 then None
    else
      match DecodeColors(s[3..], n - 1)
      case None => None
      case Some((cs, rest)) => Some(([Color(s[0], s[1], s[2])] + cs, rest))
  }

  function DecodeControl(s: seq<byte>): (r: Option<(GraphicControl, seq<byte>)>)
    ensures r.Some? ==> |s| >= 8 && r.value.1 == s[8..]
  {
    if |s| < 8 || s[0] != ExtensionIntroducer || s[1] != GraphicControlLabel
       || s[2] != GraphicControlBlockSize || s[7] != BlockTerminator then None
    else
      var p := s[3];
      Some((GraphicControl((p / 4) % 8, (p / 2) % 2 == 1, p % 2 == 1,
                           FromLittleEndian16(s[4], s[5]), s[6]),
            s[8..]))
  }

  function DecodeDescriptor(s: seq<byte>): (r: Option<(ImageDescriptor, seq<byte>)>)
    ensures r.Some? ==> |s| >= 10 && r.value.1 == s[10..]
  {
    if |s| < 10 || s[0] != ImageSeparator then None
    else
      var p := s[9];
      Some((ImageDescriptor(FromLittleEndian16(s[1], s[2]), FromLittleEndian16(s[3], s[4]),
                            FromLittleEndian16(s[5], s[6]), FromLittleEndian16(s[7], s[8]),
                            p >= 128, (p / 64) % 2 == 1, (p / 32) % 2 == 1, p % 8),
            s[10..]))
  }

  function DecodeBlocks(s: seq<byte>): (r: Option<(seq<seq<byte>>, seq<byte>)>)
    ensures r.Some? ==> ValidBlocks(r.value.0) && |r.value.1| < |s|
    decreases |s|
  {
    if |s| == 0 then None
    else
      var n: nat := s[0];
      if n == 0 then Some(([], s[1..]))
      else if |s| < 1 + n then None
      else
        match DecodeBlocks(s[1 + n..])
        case None => None
        case Some((blocks, rest)) => Some(([s[1..1 + n]] + blocks, rest))
  }

  function Decode(s: seq<byte>): (r: Option<Image>)
    ensures r.Some? ==> Valid(r.value)
    ensures r.Some? ==> |s| >= 6 && s[..6] == Header
  {
    if |s| < 6 || s[..6] != Header then None
    else
      var screen :- DecodeScreen(s[6..]);
      var global :- DecodeColors(screen.1,
        if screen.0.globalTableFlag then TableLength(screen.0.globalTableSize) else 0);
      var control :- DecodeControl(global.1);
      var descriptor :- DecodeDescriptor(control.1);
      var local :- DecodeColors(descriptor.1,
        if descriptor.0.localTableFlag then TableLength(descriptor.0.localTableSize) else 0);
      if |local.1| == 0 then None
      else
        var blocks :- DecodeBlocks(local.1[1..]);
        if blocks.1 != [Trailer] then None
        else Some(Image(screen.0, global.0, control.0, descriptor.0, local.0, local.1[0], blocks.0))
  }

  // ----- Round trip -----

  lemma ScreenRoundTrip(d: ScreenDescriptor, rest: seq<byte>)
    ensures DecodeScreen(EncodeScreen(d) + rest) == Some((d, rest))
  {
    var s := EncodeScreen(d) + rest;
    LittleEndian16RoundTrip(d.width);
    LittleEndian16RoundTrip(d.height);
    PackScreenFields(d);
    assert s[0] == Lo(d.width) && s[1] == Hi(d.width);
    assert s[2] == Lo(d.height) && s[3] == Hi(d.height);
    assert s[4] == PackScreen(d) && s[5] == d.backgroundIndex && s[6] == d.aspectRatio;
    assert s[7..] == rest;
  }

  lemma {:induction false} ColorsRoundTrip(cs: seq<Color>, rest: seq<byte>)
    ensures DecodeColors(EncodeColors(cs) + rest, |cs|) == Some((cs, rest))
    decreases |cs|
  {
    if |cs| > 0 {
      var s := EncodeColors(cs) + rest;
      assert s[0] == cs[0].red && s[1] == cs[0].green && s[2] == cs[0].blue;
      assert s[3..] == EncodeColors(cs[1..]) + rest;
      ColorsRoundTrip(cs[1..], rest);
      assert DecodeColors(s[3..], |cs| - 1) == Some((cs[1..], rest));
      assert [Color(s[0], s[1], s[2])] + cs[1..] == cs;
    } else {
      assert EncodeColors(cs) + rest == rest;
    }
  }

  lemma ControlRoundTrip(c: GraphicControl, rest: seq<byte>)
    ensures DecodeControl(EncodeControl(c) + rest) == Some((c, rest))
  {
    var s := EncodeControl(c) + rest;
    LittleEndian16RoundTrip(c.delay);
    PackControlFields(c);
    assert s[3] == PackControl(c);
    assert s[4] == Lo(c.delay) && s[5] == Hi(c.delay);
    assert s[6] == c.transparentIndex && s[7] == BlockTerminator;
    assert s[8..] == rest;
  }

  lemma DescriptorRoundTrip(d: ImageDescriptor, rest: seq<byte>)
    ensures DecodeDescriptor(EncodeDescriptor(d) + rest) == Some((d, rest))
  {
    var s := EncodeDescriptor(d) + rest;
    LittleEndian16RoundTrip(d.left);
    LittleEndian16RoundTrip(d.top);
    LittleEndian16RoundTrip(d.width);
    LittleEndian16RoundTrip(d.height);
    PackDescriptorFields(d);
    assert s[1] == Lo(d.left) && s[2] == Hi(d.left);
    assert s[3] == Lo(d.top) && s[4] == Hi(d.top);
    assert s[5] == Lo(d.width) && s[6] == Hi(d.width);
    assert s[7] == Lo(d.height) && s[8] == Hi(d.height);
    assert s[9] == PackDescriptor(d);
    assert s[10..] == rest;
  }

  lemma {:induction false} BlocksRoundTrip(blocks: seq<seq<byte>>, rest: seq<byte>)
    requires ValidBlocks(blocks)
    ensures DecodeBlocks(EncodeBlocks(blocks) + rest) == Some((blocks, rest))
    decreases |blocks|
  {
    var s := EncodeBlocks(blocks) + rest;
    if |blocks| == 0 {
      assert s[1..] == rest;
    } else {
      var b := blocks[0];
      assert s[0] == |b|;
      assert s[1..1 + |b|] == b;
      assert s[1 + |b|..] == EncodeBlocks(blocks[1..]) + rest;
      BlocksRoundTrip(blocks[1..], rest);
      assert [b] + blocks[1..] == blocks;
    }
  }

  /** Every well-formed image is read back exactly from its encoding. */
  lemma DecodeEncode(img: Image)
    requires Valid(img)
    ensures Decode(Encode(img)) == Some(img)
  {
    var tail7 := [Trailer];
    var tail6 := EncodeBlocks(img.blocks) + tail7;
    var tail5 := [img.minCodeSize] + tail6;
    var tail4 := EncodeColors(img.localTable) + tail5;
    var tail3 := EncodeDescriptor(img.descriptor) + tail4;
    var tail2 := EncodeControl(img.control) + tail3;
    var tail1 := EncodeColors(img.globalTable) + tail2;
    var tail0 := EncodeScreen(img.screen) + tail1;
    var s := Encode(img);
    assert s == Header + tail0;
    assert s[..6] == Header && s[6..] == tail0;
    ScreenRoundTrip(img.screen, tail1);
    ColorsRoundTrip(img.globalTable, tail2);
    ControlRoundTrip(img.control, tail3);
    DescriptorRoundTrip(img.descriptor, tail4);
    ColorsRoundTrip(img.localTable, tail5);
    assert tail5[0] == img.minCodeSize && tail5[1..] == tail6;
    BlocksRoundTrip(img.blocks, tail7);
  }

  // ----- Image data codes -----

  /** The LZW clear code for a minimum code size: 2^size. */
  function ClearCode(minCodeSize: nat): nat {
    Pow2(minCodeSize)
  }

  /** The LZW end-of-information code: one past the clear code. */
  function EndCode(minCodeSize: nat): nat {
    Pow2(minCodeSize) + 1
  }

  /** The bytes of the data sub-blocks, joined. */
  function DataBytes(blocks: seq<seq<byte>>): (data: seq<byte>)
    ensures |blocks| == 1 ==> data == blocks[0]
  {
    if |blocks| == 0 then [] else blocks[0] + DataBytes(blocks[1..])
  }

  /** The `width`-bit code starting at bit `offset`, least significant bit first. */
  function CodeAt(data: seq<byte>, offset: nat, width: nat): (code: nat)
    requires offset + width <= 8 * |data|
    ensures code < Pow2(width)
    decreases width
  {
    if width == 0 then 0 else Bit(data, offset) + 2 * CodeAt(data, offset + 1, width - 1)
  }

  /** The first `count` codes of a fixed width. */
  function Codes(data: seq<byte>, width: nat, count: nat): (codes: seq<nat>)
    requires width * count <= 8 * |data|
    ensures |codes| == count
    ensures forall i :: 0 <= i < count ==> codes[i] < Pow2(width)
    decreases count
  {
    if count == 0 then []
    else
      Codes(data, width, count - 1) + [CodeAt(data, width * (count - 1), width)]
  }
}
