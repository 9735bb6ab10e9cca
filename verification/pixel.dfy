/**
  The fixed response body: a 43-byte GIF89a image of one transparent pixel,
  and its reading as a structured image.
*/
module Pixel {
  import opened Wrappers
  import opened Bytes
  import opened Gif

  /** The bytes written for every request, exactly as the tracker declares them. */
  const PixelData: seq<byte> := [
    0x47, 0x49, 0x46, 0x38, 0x39, 0x61, 0x01, 0x00,
    0x01, 0x00, 0x80, 0x00, 0x00, 0x00, 0x00, 0x00,
    0xFF, 0xFF, 0xFF, 0x21, 0xF9, 0x04, 0x01, 0x00,
    0x00, 0x00, 0x00, 0x2C, 0x00, 0x00, 0x00, 0x00,
    0x01, 0x00, 0x01, 0x00, 0x00, 0x02, 0x02, 0x44,
    0x01, 0x00, 0x3B
  ]

  /**
    What the bytes say: a 1x1 screen with a two-entry global table (black, white),
    color index 0 marked transparent, one 1x1 image at the origin without a local
    table, LZW minimum code size 2 and a single two-byte data sub-block.
  */
  const PixelImage: Image :=
    Image(PixelScreen, PixelPalette, PixelControl, PixelDescriptor, [], 2, [[0x44, 0x01]])

  const PixelScreen: ScreenDescriptor := ScreenDescriptor(1, 1, true, 0, false, 0, 0, 0)
  const PixelPalette: seq<Color> := [Color(0x00, 0x00, 0x00), Color(0xFF, 0xFF, 0xFF)]
  const PixelControl: GraphicControl := GraphicControl(0, false, true, 0, 0)
  const PixelDescriptor: ImageDescriptor := ImageDescriptor(0, 0, 1, 1, false, false, false, 0)

  // The constant cut at its section boundaries.
  const ScreenSection: seq<byte> := [0x01, 0x00, 0x01, 0x00, 0x80, 0x00, 0x00]
  const PaletteSection: seq<byte> := [0x00, 0x00, 0x00, 0xFF, 0xFF, 0xFF]
  const ControlSection: seq<byte> := [0x21, 0xF9, 0x04, 0x01, 0x00, 0x00, 0x00, 0x00]
  const DescriptorSection: seq<byte> := [0x2C, 0x00, 0x00, 0x00, 0x00, 0x01, 0x00, 0x01, 0x00, 0x00]
  const DataSection: seq<byte> := [0x02, 0x02, 0x44, 0x01, 0x00]

  const Sections: seq<byte> :=
    Header + (ScreenSection + (PaletteSection + (ControlSection
      + (DescriptorSection + (DataSection + [Trailer])))))

  lemma PixelSections()
    ensures PixelData == Sections
  {
    assert |Sections| == 43;
    forall i | 0 <= i < 43
      ensures Sections[i] == PixelData[i]
    {
    }
  }

  lemma PixelValid()
    ensures Valid(PixelImage)
  {
    assert TableLength(0) == 2;
  }

  lemma ScreenBytes()
    ensures EncodeScreen(PixelImage.screen) == ScreenSection
  {
  }

  lemma TableBytes()
    ensures EncodeColors(PixelImage.globalTable) == PaletteSection
    ensures EncodeColors(PixelImage.localTable) == []
  {
  }

  lemma ControlBytes()
    ensures EncodeControl(PixelImage.control) == ControlSection
  {
  }

  lemma DescriptorBytes()
    ensures EncodeDescriptor(PixelImage.descriptor) == DescriptorSection
  {
  }

  lemma DataBytesSection()
    ensures ValidBlocks(PixelImage.blocks)
    ensures [PixelImage.minCodeSize] + EncodeBlocks(PixelImage.blocks) == DataSection
  {
  }

  /** An image's encoding assembled from the encodings of its parts. */
  lemma EncodeFromParts(img: Image, screen: seq<byte>, palette: seq<byte>, control: seq<byte>,
                        descriptor: seq<byte>, data: seq<byte>)
    requires Valid(img) && img.localTable == []
    requires EncodeScreen(img.screen) == screen && EncodeColors(img.globalTable) == palette
    requires EncodeControl(img.control) == control && EncodeDescriptor(img.descriptor) == descriptor
    requires [img.minCodeSize] + EncodeBlocks(img.blocks) == data
    ensures Encode(img) == Header + (screen + (palette + (control + (descriptor + (data + [Trailer])))))
  {
    assert EncodeColors(img.localTable) == [];
    assert [img.minCodeSize] + (EncodeBlocks(img.blocks) + [Trailer]) == data + [Trailer];
  }

  lemma EncodingSections()
    ensures Valid(PixelImage)
    ensures Encode(PixelImage) == Sections
  {
    PixelValid();
    ScreenBytes();
    TableBytes();
    ControlBytes();
    DescriptorBytes();
    DataBytesSection();
    EncodeFromParts(PixelImage, ScreenSection, PaletteSection, ControlSection, DescriptorSection, DataSection);
  }

  /** The constant is the encoding of the structured image, byte for byte. */
  lemma PixelEncoding()
    ensures Valid(PixelImage)
    ensures Encode(PixelImage) == PixelData
  {
    EncodingSections();
    PixelSections();
  }

  /** Reading the constant yields the structured image. */
  lemma PixelDecoding()
    ensures Decode(PixelData) == Some(PixelImage)
  {
    PixelEncoding();
    DecodeEncode(PixelImage);
  }

  /**
    Section-by-section facts: 43 bytes; Header "GIF89a" (section 17);
    a 1x1 logical screen in bytes 6-9 (section 18); a Graphic Control
    Extension at bytes 19-26 (section 23); the Trailer 0x3B last (section 27).
  */
  lemma PixelLayout()
    ensures |PixelData| == 43
    ensures forall i :: 0 <= i < 6 ==> PixelData[i] == "GIF89a"[i] as int
    ensures PixelData[..6] == Header
    ensures FromLittleEndian16(PixelData[6], PixelData[7]) == 1
    ensures FromLittleEndian16(PixelData[8], PixelData[9]) == 1
    ensures PixelData[19..22] == [ExtensionIntroducer, GraphicControlLabel, GraphicControlBlockSize]
    ensures PixelData[|PixelData| - 1] == Trailer
  {
    assert PixelData[6] == 1 && PixelData[7] == 0 && PixelData[8] == 1 && PixelData[9] == 0;
    assert PixelData[19] == 0x21 && PixelData[20] == 0xF9 && PixelData[21] == 0x04;
  }

  /** The bits of the image data, least significant first: 0x44 = 00100010, 0x01 = 10000000. */
  lemma DataBits()
    ensures Bit([0x44, 0x01], 0) == 0 && Bit([0x44, 0x01], 1) == 0 && Bit([0x44, 0x01], 2) == 1
    ensures Bit([0x44, 0x01], 3) == 0 && Bit([0x44, 0x01], 4) == 0 && Bit([0x44, 0x01], 5) == 0
    ensures Bit([0x44, 0x01], 6) == 1 && Bit([0x44, 0x01], 7) == 0 && Bit([0x44, 0x01], 8) == 1
  {
    assert Pow2(0) == 1 && Pow2(1) == 2 && Pow2(2) == 4 && Pow2(3) == 8;
    assert Pow2(4) == 16 && Pow2(5) == 32 && Pow2(6) == 64 && Pow2(7) == 128;
  }

  lemma DataCodes()
    ensures Codes([0x44, 0x01], 3, 3) == [4, 0, 5]
  {
    DataBits();
    var data: seq<byte> := [0x44, 0x01];
    assert CodeAt(data, 0, 3) == 4;
    assert CodeAt(data, 3, 3) == 0;
    assert CodeAt(data, 6, 3) == 5;
  }

  /**
    The single pixel is transparent: the image data's first three 3-bit codes are
    clear, color index 0, end of information, and index 0 is the transparent index.
  */
  lemma PixelTransparent()
    ensures PixelImage.control.transparentFlag && PixelImage.control.transparentIndex == 0
    ensures PixelImage.descriptor.width == 1 && PixelImage.descriptor.height == 1
    ensures Codes(DataBytes(PixelImage.blocks), PixelImage.minCodeSize + 1, 3)
            == [ClearCode(PixelImage.minCodeSize), PixelImage.control.transparentIndex,
                EndCode(PixelImage.minCodeSize)]
  {
    assert DataBytes(PixelImage.blocks) == [0x44, 0x01];
    assert Pow2(2) == 4;
    DataCodes();
  }
}
