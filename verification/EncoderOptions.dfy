// The properties that go with a coder, by the options of its encoder.
module EncoderOptions {
  import opened Common
  import opened Numbers
  import opened HeaderFormat
  import opened Blocks
  import opened UnpackFormat
  import Cbc
  import AesKey
  import Memory
  import Wire

  // What is printed of the options. The dictionary byte of LZMA2 and the
  // versions of the Brotli and Zstandard libraries are given.
  datatype Options =
    | Delta(distance: u32)
    | Lzma2(prop: byte)
    | Lzma(dictSize: u32)
    | Ppmd(order: u32, memorySize: u32)
    | Brotli(version: byte, quality: u32)
    | Lz4
    | Zstd(major: byte, minor: byte, level: u32)
    | Aes(power: byte, salt: Cbc.Block, iv: Cbc.Block)
    | Plain

  function PropertiesOf(o: Options): (p: seq<byte>)
    ensures |p| <= 34
  {
    match o
    case Delta(distance) => [(if distance == 0 then 0 else distance - 1) % 256]
    case Lzma2(prop) => [prop]
    case Lzma(dictSize) => [(2 * 5 + 0) * 9 + 3] + BytesOf(dictSize, 4)
    case Ppmd(order, memorySize) => [order % 256] + BytesOf(memorySize, 4)
    case Brotli(version, quality) => [version, 0, quality % 256]
    case Lz4 => [1, 0, 3]
    case Zstd(major, minor, level) => [major, minor, level % 256]
    case Aes(power, salt, iv) => AesKey.PropertyBytes(power, salt, iv)
    case Plain => []
  }

  // A coder is read back with the properties of any options: none has as many
  // as 128, from where on the byte in front would be taken for a longer number.
  lemma OptionsBack(id: MethodId, o: Options, had: Counts, b: Bounds, tail: seq<byte>)
    requires |CodecBytes(Method(id, PropertiesOf(o)))| <= b.bytes && b.maxStreamsPerCoder >= 1
    requires had.totalIn + 1 < TWO_64 && had.totalOut + 1 < TWO_64
    requires b.Allows(had.totalIn + 1, b.maxEntries) && b.Allows(had.totalOut + 1, b.maxEntries)
    ensures ReadCoder(CodecBytes(Method(id, PropertiesOf(o))) + tail, had, b)
         == Got(Counts(had.coders + [Coder(id, 1, 1, PropertiesOf(o))], had.totalIn + 1, had.totalOut + 1), tail)
  {
    hide ReadCoder, PropertiesOf;
    CodecRoundTrip(Method(id, PropertiesOf(o)), had, b, tail);
  }

  // The identifier that goes with the options, where there is but one.
  function IdOf(o: Options): (id: MethodId)
    requires !o.Plain?
  {
    match o
    case Delta(_) => [0x03]
    case Lzma2(_) => [0x21]
    case Lzma(_) => [0x03, 0x01, 0x01]
    case Ppmd(_, _) => [0x03, 0x04, 0x01]
    case Brotli(_, _) => [0x04, 0xF7, 0x11, 0x02]
    case Lz4 => [0x04, 0xF7, 0x11, 0x04]
    case Zstd(_, _, _) => [0x04, 0xF7, 0x11, 0x01]
    case Aes(_, _, _) => [0x06, 0xF1, 0x07, 0x01]
  }

  // The memory a reader has to reckon with for what a writer has set, in bytes.
  function Needed(o: Options): Option<nat>
    requires !o.Plain?
  {
    match o
    case Delta(_) => Some(0x10_0000)
    case Lzma2(prop) => if prop <= 40 then Some((Memory.TableSize(prop) + 15) / 16 * 16 + 0x10_0000) else None
    case Lzma(dictSize) => Some(dictSize + 0x10_0000)
    case Ppmd(_, memorySize) => Some(memorySize + 0x10_0000)
    case Brotli(_, _) => Some(0x200_0000)
    case Lz4 => Some(0x100_0000)
    case Zstd(_, _, _) => Some(0xA00_0000)
    case Aes(_, _, _) => Some(0x10_0000)
  }

  // What is printed is what the reader's estimate takes out of the properties.
  lemma PrintedCoderSized(o: Options)
    requires !o.Plain?
    ensures Memory.CoderEstimate(Coder(IdOf(o), 1, 1, PropertiesOf(o))) == Needed(o)
  {
    hide Memory.TableSize, BytesOf;
    match o
    case Lzma(dictSize) => FieldBack([(2 * 5 + 0) * 9 + 3], dictSize);
    case Ppmd(order, memorySize) => FieldBack([order % 256], memorySize);
    case _ =>
  }

  lemma FieldBack(first: seq<byte>, v: u32)
    requires |first| == 1
    ensures Memory.SizeField(first + BytesOf(v, 4)) == Ok(v)
  {
    Powers();
    var p := first + BytesOf(v, 4);
    assert p[1..5] == BytesOf(v, 4) + [];
    Wire.WordRoundTrip(v, 4, []);
  }

  // The parameters of an encrypted stream are read out of them again, and they
  // are laid out as the format has them.
  lemma AesOptionsBack(power: byte, salt: Cbc.Block, iv: Cbc.Block)
    ensures AesKey.ReadParts(PropertiesOf(Aes(power, salt, iv))) == Ok(AesKey.KeyParts(power % 64, salt, iv))
    ensures PropertiesOf(Aes(power, salt, iv)) == AesKey.LaidOut(power % 64, salt, iv)
  {
    AesKey.PartsRoundTrip(power, salt, iv);
  }
}
