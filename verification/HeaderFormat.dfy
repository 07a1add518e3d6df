// The record numbers of the 7z header, and the bounds its reader keeps to.
module HeaderFormat {
  import opened Common
  import opened Numbers

  // What the header may spend: counts of things that still have to be read are
  // checked against the bytes there are, and against the caller's limits.
  datatype Bounds = Bounds(bytes: nat, maxEntries: nat, maxCodersPerBlock: nat, maxTotalCoders: nat,
                           maxTotalNameBytes: nat, maxNameBytes: nat, maxStreamsPerCoder: nat)
  {
    predicate Allows(v: nat, cap: nat) {
      v <= bytes && v <= cap
    }

    function Count(v: nat, cap: nat): (r: Result<nat, HeaderError>)
      ensures r == if Allows(v, cap) then Ok(v) else Err(Limit)
    {
      if v > bytes then Err(Limit) else if v > cap then Err(Limit) else Ok(v)
    }
  }

  const K_END: byte := 0x00
  const K_HEADER: byte := 0x01
  const K_ARCHIVE_PROPERTIES: byte := 0x02
  const K_ADDITIONAL_STREAMS_INFO: byte := 0x03
  const K_MAIN_STREAMS_INFO: byte := 0x04
  const K_FILES_INFO: byte := 0x05
  const K_PACK_INFO: byte := 0x06
  const K_UNPACK_INFO: byte := 0x07
  const K_SUB_STREAMS_INFO: byte := 0x08
  const K_SIZE: byte := 0x09
  const K_CRC: byte := 0x0A
  const K_CODERS_UNPACK_SIZE: byte := 0x0C
  const K_FOLDER: byte := 0x0B
  const K_NUM_UNPACK_STREAM: byte := 0x0D
  const K_EMPTY_STREAM: byte := 0x0E
  const K_EMPTY_FILE: byte := 0x0F
  const K_ANTI: byte := 0x10
  const K_NAME: byte := 0x11
  const K_C_TIME: byte := 0x12
  const K_A_TIME: byte := 0x13
  const K_M_TIME: byte := 0x14
  const K_WIN_ATTRIBUTES: byte := 0x15
  const K_START_POS: byte := 0x18
}
