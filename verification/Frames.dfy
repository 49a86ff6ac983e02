/** The frame values that stages, queues and runtimes pass along. */
module Frames {
  import opened Samples

  datatype Option<+T> = None | Some(value: T)

  datatype Frame = Frame(sequence: nat, channelCount: nat, samplesPerChannel: nat, sampleRate: real, data: seq<int16>)
}
