/** Formatting a device: TCFormatVolume of Common/Format.c starts the write thread before FormatFat and stops it
    afterwards.  What FormatFat hands over is what the write thread delivers. */
module FormatDevice {
  import opened CryptoModes
  import opened FormatWriter
  import Thread = FormatThread
  import Fat = FormatFat

  /** What calls of WriteFile have put on the device: a failed one nothing. */
  function Written(writes: seq<Thread.Write>): Bytes {
    if writes == [] then []
    else
      var last := writes[|writes| - 1];
      Written(writes[..|writes| - 1]) + if last.ok then last.data else []
  }

  lemma {:induction false} WrittenIsConcat(writes: seq<Thread.Write>, buffers: seq<Bytes>)
    requires |writes| == |buffers| && forall k :: 0 <= k < |writes| ==> writes[k] == Thread.Write(buffers[k], true)
    ensures Written(writes) == Concat(buffers)
    decreases |writes|
  {
    if writes != [] { WrittenIsConcat(writes[..|writes| - 1], buffers[..|buffers| - 1]); }
  }

  lemma {:induction false} WrittenFits(writes: seq<Thread.Write>, buffers: seq<Bytes>)
    requires |writes| == |buffers| && forall k :: 0 <= k < |writes| ==> |writes[k].data| <= |buffers[k]|
    ensures |Written(writes)| <= |Concat(buffers)|
    decreases |writes|
  {
    if writes != [] { WrittenFits(writes[..|writes| - 1], buffers[..|buffers| - 1]); }
  }

  /** The formatting thread's flushes have all returned TRUE, and both threads have ended. */
  predicate Finished(cfg: Thread.Config, s: Thread.State) {
    s.producer.Stopped? && |s.flushes| == |cfg.plan| && forall k :: 0 <= k < |s.flushes| ==> s.flushes[k]
  }

  /** After that the device holds all buffers exactly if the last write succeeded. */
  lemma AllDelivered(cfg: Thread.Config, s: Thread.State)
    requires Thread.ValidConfig(cfg) && Thread.Reachable(cfg, s) && Finished(cfg, s)
    ensures Written(s.writes) == Concat(cfg.plan) <==> Thread.LastOk(s.writes)
  {
    hide Thread.Reachable; hide Written; hide Concat;
    Thread.AtTheEnd(cfg, s);
    if Thread.LastOk(s.writes) {
      WrittenIsConcat(s.writes, cfg.plan);
    } else {
      LastIsMissing(cfg, s);
    }
  }

  lemma LastIsMissing(cfg: Thread.Config, s: Thread.State)
    requires Thread.ValidConfig(cfg) && Thread.Reachable(cfg, s) && !Thread.LastOk(s.writes)
    requires |s.writes| == |s.submitted| && s.submitted == cfg.plan
    ensures |Written(s.writes)| < |Concat(cfg.plan)|
  {
    hide Thread.Reachable; hide Thread.Token; hide Thread.Result; hide Thread.Contents; hide Thread.Returned;
    Thread.ReachableInv(cfg, s);
    var n := |s.writes| - 1;
    forall k | 0 <= k < n ensures |s.writes[..n][k].data| <= |cfg.plan[..n][k]| {
      assert Thread.IsPrefix(s.writes[k].data, s.submitted[k]);
    }
    WrittenFits(s.writes[..n], cfg.plan[..n]);
  }

  /** FormatFat on a device.  In every run in which the write thread gets the buffers that FormatFat sent, the device
      afterwards holds every sector under its key at its place, if and only if the last write succeeded. */
  method Format(w: Writer, v: Fat.Volume, keyReady: bool, aborted: nat -> bool, quickFormat: bool, parallel: bool) returns (ok: bool)
    requires v.Valid() && Fat.SoFar(w, v, 0, v.realKey) && w.dev.WriteThreadRunning
    modifies w, w.dev, w.write_buf
    ensures ok ==> |w.items| == (if quickFormat then v.reserved + 2 * v.fatLength + v.rootSectors else v.sectors)
    ensures ok ==> forall i :: 0 <= i < |w.items| ==>
                                 && w.items[i].sector == Fat.SectorAt(v, i)
                                 && w.items[i].key == if i < v.reserved + 2 * v.fatLength + v.rootSectors then v.realKey else v.temporaryKey
    ensures ok ==> Thread.ValidConfig(Thread.Config(w.dev.sent, FormatWriteBufferSize))
    ensures var cfg := Thread.Config(w.dev.sent, FormatWriteBufferSize);
            ok ==> forall s: Thread.State :: Thread.Reachable(cfg, s) && Finished(cfg, s) ==>
                                               (Written(s.writes) == Encrypted(w.ciphers, w.ss, w.first, w.items) <==> Thread.LastOk(s.writes))
  {
    hide Thread.Reachable; hide Written; hide Concat; hide Encrypted; hide Writer.Valid; hide Finished; hide Thread.LastOk;
    hide Fat.SectorAt;
    ok := Fat.FormatFat(w, v, keyReady, aborted, quickFormat, parallel);
    if ok {
      ghost var cfg := Thread.Config(w.dev.sent, FormatWriteBufferSize);
      forall s: Thread.State | Thread.Reachable(cfg, s) && Finished(cfg, s)
        ensures Written(s.writes) == Encrypted(w.ciphers, w.ss, w.first, w.items) <==> Thread.LastOk(s.writes)
      {
        AllDelivered(cfg, s);
      }
    }
  }
}
