/** Two reachable states of a daisy-chain copy from which a seek serves the wrong bytes. */
module DaisyChainExamples {
  import opened Sequences
  import opened Wrappers
  import opened DaisyChain

  const CF := Config([1, 2, 3], 10, 2, 10)

  lemma InitReachable(cf: Config)
    requires ValidConfig(cf)
    ensures Reachable(cf, Init())
  {
    assert SafeRun(cf, Init(), [], Init());
  }

  /** The first two bytes have been downloaded in one piece. */
  const TWO_BYTES := Init().(buffer := [[1, 2]], bytesBuffered := 2, download := Sending(2, 3, true))

  lemma TwoBytesReachable()
    ensures Reachable(CF, TWO_BYTES)
  {
    InitReachable(CF);
    ReachableStep(CF, Init(), DRequest);
    var c1 := Init().(download := Sending(0, 3, true));
    ReachableStep(CF, c1, DWrite(2));
    var c2 := c1.(download := Space(0, 3, true, 2));
    ReachableStep(CF, c2, DSpace);
    var c3 := c2.(download := Append(0, 3, true, 2));
    ReachableStep(CF, c3, DAppend);
    assert Window(CF.source, 0, 2) == [1, 2] && [] + [[1, 2]] == [[1, 2]];
  }

  /** The upload has read one of them. */
  const PART_LEFT := TWO_BYTES.(
    buffer := [], unused := [2], bytesBuffered := 1, position := 1, head := 1, lastData := Some([1]))

  lemma PartLeftReachable()
    ensures Reachable(CF, PART_LEFT)
  {
    TwoBytesReachable();
    ReachableStep(CF, TWO_BYTES, URead(1));
    var c1 := TWO_BYTES.(upload := Reading(1));
    ReachableStep(CF, c1, UPoll);
    var c2 := c1.(upload := Taking(1, []));
    ReachableStep(CF, c2, UTake);
    assert [1, 2][..1] == [1] && [1, 2][1..] == [2] && [[1, 2]][1..] == [];
  }

  /** A rewind by one read while part of a chunk is left over: the next read, at position 0, returns the
      second byte of the object. */
  lemma RewindServesWrongByte()
    ensures Reachable(CF, PART_LEFT) && PART_LEFT.lastPosition == 0 && !SeekSafe(PART_LEFT, 0)
    ensures Enabled(CF, PART_LEFT, USeek(0))
    ensures
      var r := StartRead(CF, Seek(PART_LEFT, 0), 1);
      r.position == 0 && r.upload.Taking? && TakenData(r) == [2] != CF.source[..1]
  {
    PartLeftReachable();
    assert [2][..1] == [2] && CF.source[..1] == [1];
  }

  const CF2 := Config([1, 2], 10, 2, 10)

  /** The download was restarted at offset 1. */
  const RESTARTED := Init().(position := 1, head := 1, download := Between(1))

  lemma RestartedReachable()
    ensures Reachable(CF2, RESTARTED)
  {
    InitReachable(CF2);
    ReachableStep(CF2, Init(), USeek(1));
    var c0 := Init().(upload := Draining(1, false), stop := true);
    ReachableStep(CF2, c0, DRequest);
    var c1 := c0.(download := Sending(0, 2, true));
    ReachableStep(CF2, c1, DWrite(2));
    var c2 := c1.(download := Space(0, 2, true, 2));
    ReachableStep(CF2, c2, DSpace);
    var c3 := c2.(download := Append(0, 2, true, 2));
    ReachableStep(CF2, c3, DAppend);
    assert Window(CF2.source, 0, 2) == [1, 2] && [] + [[1, 2]] == [[1, 2]];
    var c4 := c3.(buffer := [[1, 2]], bytesBuffered := 2, download := Sending(2, 2, true));
    ReachableStep(CF2, c4, DFinish);
    ReachableStep(CF2, c4.(download := Dead), URestart);
  }

  /** The new download delivers its first byte. */
  const SECOND_BYTE := RESTARTED.(buffer := [[2]], bytesBuffered := 1, download := Sending(2, 2, true))

  lemma SecondByteReachable()
    ensures Reachable(CF2, SECOND_BYTE)
  {
    RestartedReachable();
    ReachableStep(CF2, RESTARTED, DRequest);
    var c1 := RESTARTED.(download := Sending(1, 2, true));
    ReachableStep(CF2, c1, DWrite(1));
    var c2 := c1.(download := Space(1, 2, true, 1));
    ReachableStep(CF2, c2, DSpace);
    var c3 := c2.(download := Append(1, 2, true, 1));
    ReachableStep(CF2, c3, DAppend);
    assert Window(CF2.source, 1, 2) == [2] && [] + [[2]] == [[2]];
  }

  /** `seek(0)` after a restart elsewhere, before the next read: the upload believes to be at 0, and is
      given the byte at 1. */
  lemma SeekToStartServesWrongByte()
    ensures Reachable(CF2, SECOND_BYTE) && SECOND_BYTE.lastPosition == 0 && !SeekSafe(SECOND_BYTE, 0)
    ensures Enabled(CF2, SECOND_BYTE, USeek(0))
    ensures
      var r := PollRead(StartRead(CF2, Seek(SECOND_BYTE, 0), 1));
      r.position == 0 && r.upload.Taking? && TakenData(r) == [2] != CF2.source[..1]
  {
    SecondByteReachable();
    assert [2][..1] == [2] && CF2.source[..1] == [1];
  }
}
