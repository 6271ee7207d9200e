/** Raw input buffers as the input formatter passes them to the shredder. */
module RawBuffers {
  import opened Options

  /** The handle of a raw tuple buffer: its sequence number and its valid bytes. */
  datatype RawBuffer = RawBuffer(sequenceNumber: nat, bytes: string)

  /** A buffer in the care of the shredder.  `buffer` is `None` for the
      artificial first and last delimiters and for a buffer that was moved out. */
  datatype StagedBuffer = StagedBuffer(
    buffer: Option<RawBuffer>,
    sizeInBytes: nat,
    offsetOfFirstDelimiter: nat,
    offsetOfLastDelimiter: nat)
}
