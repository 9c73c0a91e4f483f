/** What a session does with the engine: each part makes the calls of its script, in order, with
    the handles the engine returned, stops at the first call that raises, and leaves open exactly
    the handle it returns. */
module SessionProperties {
  import opened Wrappers
  import opened Jacob
  import opened OcrConstants
  import opened OcrException
  import opened OcrProperties
  import opened OcrResultUtils
  import opened A2iaEngine
  import opened EngineSession

  /** `openChannelA2ia` runs its script: the parameter handle in the script is the one the
      second call returned. */
  lemma ChannelRunIsScript(respond: (seq<Exchange>, Call) -> Reply, log: seq<Exchange>, config: Config)
    ensures var a := ChannelRun(respond, log, config);
      a.exchanges == RunCalls(respond, log, [], ChannelCalls(config, HandleAt(a.exchanges, 1)))
  {
    var a := ChannelRun(respond, log, config);
    var calls := ChannelCalls(config, HandleAt(a.exchanges, 1));
    var t1 := Step(respond, log, [], ScrInit(""));
    assert RunCalls(respond, log, [], calls) == RunCalls(respond, log, t1, calls);
    if RaisedLast(t1) {
      return;
    }
    var t2 := Step(respond, log, t1, ScrCreateChannelParam);
    assert RunCalls(respond, log, t1, calls) == RunCalls(respond, log, t2, calls);
    if RaisedLast(t2) {
      return;
    }
    var p := t2[1].reply.id;
    var t3 := Step(respond, log, t2, SetProperty(p, "cpu[1].cpuServer", config.serverHost.GetOr("")));
    var t4 := Step(respond, log, t3, SetProperty(p, "cpu[1].portServer", config.serverPort.GetOr("")));
    var t5 := Step(respond, log, t4, SetProperty(p, "cpu[1].paramdir", config.paramDir));
    var t6 := Step(respond, log, t5, ScrOpenChannelExt(p, 10000));
    assert HandleAt(a.exchanges, 1) == p;
    assert RunCalls(respond, log, t2, calls) == RunCalls(respond, log, t3, calls);
    if !RaisedLast(t3) {
      assert RunCalls(respond, log, t3, calls) == RunCalls(respond, log, t4, calls);
      if !RaisedLast(t4) {
        assert RunCalls(respond, log, t4, calls) == RunCalls(respond, log, t5, calls);
        if !RaisedLast(t5) {
          assert RunCalls(respond, log, t5, calls) == RunCalls(respond, log, t6, calls);
        }
      }
    }
  }

  /** `openChannelA2ia` succeeds exactly when its last call returned, with that call's handle,
      and otherwise fails with the engine's error. */
  lemma ChannelRunResult(respond: (seq<Exchange>, Call) -> Reply, log: seq<Exchange>, config: Config)
    ensures var a := ChannelRun(respond, log, config);
      (a.result.Ok? <==> !RaisedLast(a.exchanges))
      && (a.result.Ok? ==> a.result.value == HandleAt(a.exchanges, 5))
      && (a.result.Err? ==> a.result.error == EngineCallFailed(a.exchanges[|a.exchanges| - 1].reply.message))
  {
  }

  /** `openChannelA2ia` makes the six calls of its script, the last four on the parameter set
      the second one returned, and stops only when a call raises; it succeeds exactly when all
      six return, with the handle of the last. */
  lemma ChannelRunScript(respond: (seq<Exchange>, Call) -> Reply, log: seq<Exchange>, config: Config)
    ensures var a := ChannelRun(respond, log, config);
      var calls := ChannelCalls(config, HandleAt(a.exchanges, 1));
      Performs(a.exchanges, calls)
      && (a.result.Ok? <==> Completes(a.exchanges, calls))
      && (a.result.Ok? ==> a.result.value == HandleAt(a.exchanges, 5))
      && (a.result.Err? ==>
            RaisedLast(a.exchanges) && a.result.error == EngineCallFailed(a.exchanges[|a.exchanges| - 1].reply.message))
  {
    var a := ChannelRun(respond, log, config);
    ChannelRunIsScript(respond, log, config);
    ChannelRunResult(respond, log, config);
    RunCallsPerforms(respond, log, [], ChannelCalls(config, HandleAt(a.exchanges, 1)));
  }

  /** A channel that opens is the only handle `openChannelA2ia` leaves open; it opens no request. */
  lemma ChannelRunOpens(respond: (seq<Exchange>, Call) -> Reply, log: seq<Exchange>, config: Config,
                        channels: set<int>, requests: set<int>)
    ensures var a := ChannelRun(respond, log, config);
      ChannelsAfterAll(channels, a.exchanges) == (if a.result.Ok? then channels + {a.result.value} else channels)
      && RequestsAfterAll(requests, a.exchanges) == requests
  {
    var t1 := Step(respond, log, [], ScrInit(""));
    StepAfter(channels, requests, respond, log, [], ScrInit(""));
    if RaisedLast(t1) {
      return;
    }
    var t2 := Step(respond, log, t1, ScrCreateChannelParam);
    StepAfter(channels, requests, respond, log, t1, ScrCreateChannelParam);
    if RaisedLast(t2) {
      return;
    }
    var p := t2[1].reply.id;
    var c3 := SetProperty(p, "cpu[1].cpuServer", config.serverHost.GetOr(""));
    var c4 := SetProperty(p, "cpu[1].portServer", config.serverPort.GetOr(""));
    var c5 := SetProperty(p, "cpu[1].paramdir", config.paramDir);
    var c6 := ScrOpenChannelExt(p, 10000);
    var t3 := Step(respond, log, t2, c3);
    var t4 := Step(respond, log, t3, c4);
    var t5 := Step(respond, log, t4, c5);
    StepAfter(channels, requests, respond, log, t2, c3);
    StepAfter(channels, requests, respond, log, t3, c4);
    StepAfter(channels, requests, respond, log, t4, c5);
    StepAfter(channels, requests, respond, log, t5, c6);
  }

  /** `openRequestA2ia` runs its script with the table and document handles the first two
      calls returned; when the image cannot be converted it runs only the first four calls. */
  lemma RequestRunIsScript(respond: (seq<Exchange>, Call) -> Reply, log: seq<Exchange>, tbl: string, extension: string,
                           imagePath: Option<string>, content: Option<seq<byte>>, fileMode: bool, channelId: int,
                           finishesInTime: seq<byte> -> bool)
    ensures var a := RequestRun(respond, log, tbl, extension, imagePath, content, fileMode, channelId, finishesInTime);
      var calls := RequestCalls(tbl, extension, SourceOf(imagePath, content, fileMode), channelId,
                                HandleAt(a.exchanges, 0), HandleAt(a.exchanges, 1));
      a.exchanges == RunCalls(respond, log, [],
                              if fileMode || Conversion(content, finishesInTime).Ok? then calls else calls[..4])
  {
    var a := RequestRun(respond, log, tbl, extension, imagePath, content, fileMode, channelId, finishesInTime);
    var source := SourceOf(imagePath, content, fileMode);
    var converts := fileMode || Conversion(content, finishesInTime).Ok?;
    var t1 := Step(respond, log, [], ScrOpenDocumentTable(tbl));
    if RaisedLast(t1) {
      var calls := RequestCalls(tbl, extension, source, channelId, HandleAt(t1, 0), HandleAt(t1, 1));
      var run := if converts then calls else calls[..4];
      RunCallsFrom(respond, log, [], run, ScrOpenDocumentTable(tbl));
      RunCallsStopped(respond, log, t1, run);
      return;
    }
    var tableId := t1[0].reply.id;
    var t2 := Step(respond, log, t1, ScrGetDefaultDocument(tableId));
    if RaisedLast(t2) {
      var calls := RequestCalls(tbl, extension, source, channelId, tableId, HandleAt(t2, 1));
      var run := if converts then calls else calls[..4];
      assert HandleAt(t2, 0) == tableId;
      RunCallsFrom(respond, log, [], run, ScrOpenDocumentTable(tbl));
      RunCallsFrom(respond, log, t1, run, ScrGetDefaultDocument(tableId));
      RunCallsStopped(respond, log, t2, run);
      return;
    }
    var docId := t2[1].reply.id;
    var calls := RequestCalls(tbl, extension, source, channelId, tableId, docId);
    var run := if converts then calls else calls[..4];
    StepFollows(respond, log, [], calls);
    StepFollows(respond, log, t1, calls);
    DescribeAndOpenRunIsScript(respond, log, t2, tbl, tableId, docId, extension, imagePath, content, fileMode,
                               channelId, finishesInTime);
    assert Follows(t2, run);
    RunCallsPerforms(respond, log, t2, run);
    assert a.exchanges == RunCalls(respond, log, t2, run);
    assert HandleAt(a.exchanges, 0) == tableId && HandleAt(a.exchanges, 1) == docId;
    RunCallsFrom(respond, log, [], run, ScrOpenDocumentTable(tbl));
    RunCallsFrom(respond, log, t1, run, ScrGetDefaultDocument(tableId));
  }

  /** The image part runs its two calls as the next calls of a script, stopping after the
      first when the image cannot be converted. */
  lemma SourceRunIsScript(respond: (seq<Exchange>, Call) -> Reply, log: seq<Exchange>, t: seq<Exchange>, docId: int,
                          imagePath: Option<string>, content: Option<seq<byte>>, fileMode: bool,
                          finishesInTime: seq<byte> -> bool, run: seq<Call>)
    requires var source := SourceCalls(SourceOf(imagePath, content, fileMode), docId);
      var converts := fileMode || Conversion(content, finishesInTime).Ok?;
      !RaisedLast(t) && |t| < |run| && run[|t|] == source[0]
      && (converts ==> |t| + 1 < |run| && run[|t| + 1] == source[1])
      && (!converts ==> |run| == |t| + 1)
    ensures var d := SourceRun(respond, log, t, docId, imagePath, content, fileMode, finishesInTime);
      (d.result.Ok? ==> RunCalls(respond, log, t, run) == RunCalls(respond, log, d.exchanges, run)
                         && |d.exchanges| == |t| + 2 && !RaisedLast(d.exchanges))
      && (d.result.Err? ==> RunCalls(respond, log, t, run) == d.exchanges)
  {
    var source := SourceCalls(SourceOf(imagePath, content, fileMode), docId);
    var t4 := Step(respond, log, t, source[0]);
    RunCallsFrom(respond, log, t, run, source[0]);
    if RaisedLast(t4) {
      RunCallsStopped(respond, log, t4, run);
      return;
    }
    if !fileMode && Conversion(content, finishesInTime).Err? {
      return;
    }
    var t5 := Step(respond, log, t4, source[1]);
    RunCallsFrom(respond, log, t4, run, source[1]);
    if RaisedLast(t5) {
      RunCallsStopped(respond, log, t5, run);
    }
  }

  /** The part of `openRequestA2ia` after the default document runs the script from its third
      call. */
  lemma DescribeAndOpenRunIsScript(respond: (seq<Exchange>, Call) -> Reply, log: seq<Exchange>, t2: seq<Exchange>,
                                   tbl: string, tableId: int, docId: int, extension: string, imagePath: Option<string>,
                                   content: Option<seq<byte>>, fileMode: bool, channelId: int,
                                   finishesInTime: seq<byte> -> bool)
    requires var calls := RequestCalls(tbl, extension, SourceOf(imagePath, content, fileMode), channelId, tableId, docId);
      Follows(t2, calls) && |t2| == 2 && !RaisedLast(t2)
    ensures var calls := RequestCalls(tbl, extension, SourceOf(imagePath, content, fileMode), channelId, tableId, docId);
      DescribeAndOpenRun(respond, log, t2, docId, extension, imagePath, content, fileMode, channelId, finishesInTime).exchanges
      == RunCalls(respond, log, t2, if fileMode || Conversion(content, finishesInTime).Ok? then calls else calls[..4])
  {
    var source := SourceCalls(SourceOf(imagePath, content, fileMode), docId);
    var calls := RequestCalls(tbl, extension, SourceOf(imagePath, content, fileMode), channelId, tableId, docId);
    var converts := fileMode || Conversion(content, finishesInTime).Ok?;
    var run := if converts then calls else calls[..4];
    assert run[2] == SetProperty(docId, "image.inputFormat", extension) && run[3] == source[0];
    assert converts ==> |run| == 6 && run[4] == source[1] && run[5] == ScrOpenRequest(channelId, docId);
    var t3 := Step(respond, log, t2, run[2]);
    RunCallsFrom(respond, log, t2, run, run[2]);
    if RaisedLast(t3) {
      RunCallsStopped(respond, log, t3, run);
      return;
    }
    SourceRunIsScript(respond, log, t3, docId, imagePath, content, fileMode, finishesInTime, run);
    var described := SourceRun(respond, log, t3, docId, imagePath, content, fileMode, finishesInTime);
    if described.result.Err? {
      return;
    }
    var t6 := Step(respond, log, described.exchanges, ScrOpenRequest(channelId, docId));
    RunCallsFrom(respond, log, described.exchanges, run, ScrOpenRequest(channelId, docId));
    if RaisedLast(t6) {
      RunCallsStopped(respond, log, t6, run);
    }
  }

  /** How the image part ends: it succeeds only when the image converts and its last call
      returned; a raising call gives the engine's error; otherwise the conversion failed. */
  lemma SourceRunResult(respond: (seq<Exchange>, Call) -> Reply, log: seq<Exchange>, t: seq<Exchange>, docId: int,
                        imagePath: Option<string>, content: Option<seq<byte>>, fileMode: bool,
                        finishesInTime: seq<byte> -> bool)
    ensures var a := SourceRun(respond, log, t, docId, imagePath, content, fileMode, finishesInTime);
      var converts := fileMode || Conversion(content, finishesInTime).Ok?;
      (a.result.Ok? ==> converts && !RaisedLast(a.exchanges))
      && (a.result.Err? && RaisedLast(a.exchanges) ==>
            a.result.error == EngineCallFailed(a.exchanges[|a.exchanges| - 1].reply.message))
      && (a.result.Err? && !RaisedLast(a.exchanges) ==>
            !converts && a.result.error == Conversion(content, finishesInTime).error && |a.exchanges| == |t| + 1)
  {
    if fileMode {
      return;
    }
    var t4 := Step(respond, log, t, SetProperty(docId, "image.imageSourceType", OCR_MODE_MEMORY));
    if RaisedLast(t4) {
      return;
    }
    match Conversion(content, finishesInTime)
    case Err(e) =>
    case Ok(buffer) =>
  }

  /** How the part after the default document ends, in the same terms. */
  lemma DescribeAndOpenRunResult(respond: (seq<Exchange>, Call) -> Reply, log: seq<Exchange>, t: seq<Exchange>, docId: int,
                                 extension: string, imagePath: Option<string>, content: Option<seq<byte>>, fileMode: bool,
                                 channelId: int, finishesInTime: seq<byte> -> bool)
    ensures var a := DescribeAndOpenRun(respond, log, t, docId, extension, imagePath, content, fileMode, channelId, finishesInTime);
      var u := a.exchanges;
      var converts := fileMode || Conversion(content, finishesInTime).Ok?;
      (a.result.Ok? ==> converts && !RaisedLast(u) && a.result.value == u[|u| - 1].reply.id)
      && (a.result.Err? && RaisedLast(u) ==> a.result.error == EngineCallFailed(u[|u| - 1].reply.message))
      && (a.result.Err? && !RaisedLast(u) ==>
            !converts && a.result.error == Conversion(content, finishesInTime).error && |u| == |t| + 2)
  {
    var t3 := Step(respond, log, t, SetProperty(docId, "image.inputFormat", extension));
    if RaisedLast(t3) {
      return;
    }
    SourceRunResult(respond, log, t3, docId, imagePath, content, fileMode, finishesInTime);
  }

  /** How `openRequestA2ia` ends: with the handle of its last call when that returned and the
      image could be converted, with the engine's error when a call raised, and otherwise with
      the conversion's error after four calls. */
  lemma RequestRunResult(respond: (seq<Exchange>, Call) -> Reply, log: seq<Exchange>, tbl: string, extension: string,
                         imagePath: Option<string>, content: Option<seq<byte>>, fileMode: bool, channelId: int,
                         finishesInTime: seq<byte> -> bool)
    ensures var a := RequestRun(respond, log, tbl, extension, imagePath, content, fileMode, channelId, finishesInTime);
      var t := a.exchanges;
      var converts := fileMode || Conversion(content, finishesInTime).Ok?;
      (a.result.Ok? ==> converts && !RaisedLast(t) && a.result.value == t[|t| - 1].reply.id)
      && (a.result.Err? && RaisedLast(t) ==> a.result.error == EngineCallFailed(t[|t| - 1].reply.message))
      && (a.result.Err? && !RaisedLast(t) ==>
            !converts && a.result.error == Conversion(content, finishesInTime).error && |t| == 4)
  {
    var document := DocumentRun(respond, log, tbl);
    if document.result.Ok? {
      DescribeAndOpenRunResult(respond, log, document.exchanges, document.result.value, extension, imagePath, content,
                               fileMode, channelId, finishesInTime);
    }
  }

  /** `openRequestA2ia` makes the calls of its script in order, on the table and document it
      obtained and the channel it was given. It succeeds exactly when all six return, with the
      handle of the last; it stops early on an engine error, or in Memory mode after four calls
      when the image has no content or is not converted in time. */
  lemma RequestRunScript(respond: (seq<Exchange>, Call) -> Reply, log: seq<Exchange>, tbl: string, extension: string,
                         imagePath: Option<string>, content: Option<seq<byte>>, fileMode: bool, channelId: int,
                         finishesInTime: seq<byte> -> bool)
    ensures var a := RequestRun(respond, log, tbl, extension, imagePath, content, fileMode, channelId, finishesInTime);
      var t := a.exchanges;
      var calls := RequestCalls(tbl, extension, SourceOf(imagePath, content, fileMode), channelId, HandleAt(t, 0), HandleAt(t, 1));
      Follows(t, calls)
      && (a.result.Ok? <==> Completes(t, calls))
      && (a.result.Ok? ==> a.result.value == HandleAt(t, 5))
      && (a.result.Err? && RaisedLast(t) ==> a.result.error == EngineCallFailed(t[|t| - 1].reply.message))
      && (a.result.Err? && !RaisedLast(t) ==>
            !fileMode && |t| == 4 && Conversion(content, finishesInTime).Err?
            && a.result.error == Conversion(content, finishesInTime).error)
  {
    var a := RequestRun(respond, log, tbl, extension, imagePath, content, fileMode, channelId, finishesInTime);
    var t := a.exchanges;
    var calls := RequestCalls(tbl, extension, SourceOf(imagePath, content, fileMode), channelId, HandleAt(t, 0), HandleAt(t, 1));
    RequestRunIsScript(respond, log, tbl, extension, imagePath, content, fileMode, channelId, finishesInTime);
    RequestRunResult(respond, log, tbl, extension, imagePath, content, fileMode, channelId, finishesInTime);
    var converts := fileMode || Conversion(content, finishesInTime).Ok?;
    RequestScriptEnds(respond, log, calls, converts, t, a.result);
  }

  /** The request script, run in full when the image converts and to its fourth call otherwise,
      by a part that succeeds only by completing it and otherwise stops on an engine error or
      after four calls. */
  lemma RequestScriptEnds(respond: (seq<Exchange>, Call) -> Reply, log: seq<Exchange>, calls: seq<Call>, converts: bool,
                          t: seq<Exchange>, result: Result<int, OcrError>)
    requires |calls| == 6 && t == RunCalls(respond, log, [], if converts then calls else calls[..4])
    requires result.Ok? ==> converts && t != [] && !RaisedLast(t) && result.value == t[|t| - 1].reply.id
    requires result.Err? && !RaisedLast(t) ==> !converts && |t| == 4
    ensures Follows(t, calls)
    ensures result.Ok? <==> Completes(t, calls)
    ensures result.Ok? ==> result.value == HandleAt(t, 5)
  {
    if converts {
      assert calls[..6] == calls;
      RunPartEnds(respond, log, calls, 6, t, result.Ok?);
    } else {
      RunPartEnds(respond, log, calls, 4, t, result.Ok?);
    }
  }

  /** The image part opens and closes nothing. */
  lemma SourceRunOpens(respond: (seq<Exchange>, Call) -> Reply, log: seq<Exchange>, t: seq<Exchange>, docId: int,
                       imagePath: Option<string>, content: Option<seq<byte>>, fileMode: bool,
                       finishesInTime: seq<byte> -> bool, channels: set<int>, requests: set<int>)
    ensures var u := SourceRun(respond, log, t, docId, imagePath, content, fileMode, finishesInTime).exchanges;
      ChannelsAfterAll(channels, u) == ChannelsAfterAll(channels, t)
      && RequestsAfterAll(requests, u) == RequestsAfterAll(requests, t)
  {
    var c4 := SetProperty(docId, "image.imageSourceType", if fileMode then OCR_MODE_FILE else OCR_MODE_MEMORY);
    var t4 := Step(respond, log, t, c4);
    StepAfter(channels, requests, respond, log, t, c4);
    if RaisedLast(t4) {
      return;
    }
    if fileMode {
      StepAfter(channels, requests, respond, log, t4,
                SetProperty(docId, "image.imageSourceTypeInfo.CaseFile.fileName", imagePath.GetOr("")));
    } else if Conversion(content, finishesInTime).Ok? {
      StepAfter(channels, requests, respond, log, t4,
                ScrSetBuffer(docId, "image.imageSourceTypeInfo.CaseMemory.buffer", Conversion(content, finishesInTime).value));
    }
  }

  /** The part after the default document opens at most the request it returns. */
  lemma DescribeAndOpenRunOpens(respond: (seq<Exchange>, Call) -> Reply, log: seq<Exchange>, t: seq<Exchange>, docId: int,
                                extension: string, imagePath: Option<string>, content: Option<seq<byte>>, fileMode: bool,
                                channelId: int, finishesInTime: seq<byte> -> bool, channels: set<int>, requests: set<int>)
    ensures var a := DescribeAndOpenRun(respond, log, t, docId, extension, imagePath, content, fileMode, channelId, finishesInTime);
      ChannelsAfterAll(channels, a.exchanges) == ChannelsAfterAll(channels, t)
      && RequestsAfterAll(requests, a.exchanges)
         == (if a.result.Ok? then RequestsAfterAll(requests, t) + {a.result.value} else RequestsAfterAll(requests, t))
  {
    var c3 := SetProperty(docId, "image.inputFormat", extension);
    var t3 := Step(respond, log, t, c3);
    StepAfter(channels, requests, respond, log, t, c3);
    if RaisedLast(t3) {
      return;
    }
    var described := SourceRun(respond, log, t3, docId, imagePath, content, fileMode, finishesInTime);
    SourceRunOpens(respond, log, t3, docId, imagePath, content, fileMode, finishesInTime, channels, requests);
    if described.result.Ok? {
      StepAfter(channels, requests, respond, log, described.exchanges, ScrOpenRequest(channelId, docId));
    }
  }

  /** A request that opens is the only handle `openRequestA2ia` leaves open; it opens no
      channel. */
  lemma RequestRunOpens(respond: (seq<Exchange>, Call) -> Reply, log: seq<Exchange>, tbl: string, extension: string,
                        imagePath: Option<string>, content: Option<seq<byte>>, fileMode: bool, channelId: int,
                        finishesInTime: seq<byte> -> bool, channels: set<int>, requests: set<int>)
    ensures var a := RequestRun(respond, log, tbl, extension, imagePath, content, fileMode, channelId, finishesInTime);
      ChannelsAfterAll(channels, a.exchanges) == channels
      && RequestsAfterAll(requests, a.exchanges) == (if a.result.Ok? then requests + {a.result.value} else requests)
  {
    var t1 := Step(respond, log, [], ScrOpenDocumentTable(tbl));
    StepAfter(channels, requests, respond, log, [], ScrOpenDocumentTable(tbl));
    if RaisedLast(t1) {
      return;
    }
    var t2 := Step(respond, log, t1, ScrGetDefaultDocument(t1[0].reply.id));
    StepAfter(channels, requests, respond, log, t1, ScrGetDefaultDocument(t1[0].reply.id));
    if RaisedLast(t2) {
      return;
    }
    DescribeAndOpenRunOpens(respond, log, t2, t2[1].reply.id, extension, imagePath, content, fileMode, channelId,
                            finishesInTime, channels, requests);
  }

  /** The `finally` block closes the request, then the channel, stopping at the first close that
      raises; when none raises, exactly those two handles are no longer open. */
  lemma CleanupRunCloses(respond: (seq<Exchange>, Call) -> Reply, log: seq<Exchange>, request: Option<int>,
                         channel: Option<int>, channels: set<int>, requests: set<int>)
    ensures var c := CleanupRun(respond, log, request, channel);
      Performs(c.exchanges, CleanupCalls(request, channel))
      && (c.result.Ok? <==> !RaisedLast(c.exchanges))
      && (c.result.Err? ==> c.result.error == EngineCallFailed(c.exchanges[|c.exchanges| - 1].reply.message))
      && (c.result.Ok? ==>
            ChannelsAfterAll(channels, c.exchanges) == channels - HandleSet(channel)
            && RequestsAfterAll(requests, c.exchanges) == requests - HandleSet(request))
  {
    var calls := CleanupCalls(request, channel);
    RunCallsPerforms(respond, log, [], calls);
    if calls == [] {
      return;
    }
    var t1 := Step(respond, log, [], calls[0]);
    StepAfter(channels, requests, respond, log, [], calls[0]);
    assert RunCalls(respond, log, [], calls) == RunCalls(respond, log, t1, calls);
    if |calls| == 2 && !RaisedLast(t1) {
      var t2 := Step(respond, log, t1, calls[1]);
      StepAfter(channels, requests, respond, log, t1, calls[1]);
      assert RunCalls(respond, log, t1, calls) == RunCalls(respond, log, t2, calls);
    }
  }

  /** A close of the request that raises ends the `finally` block before the channel is closed:
      the channel stays open on the engine. */
  lemma CloseRequestFailureLeaksChannel(respond: (seq<Exchange>, Call) -> Reply, log: seq<Exchange>, request: int,
                                        channel: int, channels: set<int>)
    requires respond(log, ScrCloseRequest(request)).Raised?
    ensures var c := CleanupRun(respond, log, Some(request), Some(channel));
      c.result.Err? && c.exchanges == [Exchange(ScrCloseRequest(request), respond(log, ScrCloseRequest(request)))]
      && ChannelsAfterAll(channels, c.exchanges) == channels
  {
    var calls := CleanupCalls(Some(request), Some(channel));
    assert log + [] == log;
    var t1 := Step(respond, log, [], calls[0]);
    StepAfter(channels, {}, respond, log, [], calls[0]);
    assert RunCalls(respond, log, [], calls) == RunCalls(respond, log, t1, calls);
  }

  /** Once the channel is open, the `try` block opens at most the request it returns to the
      `finally` block, and no channel. */
  lemma AfterChannelOpens(respond: (seq<Exchange>, Call) -> Reply, log: seq<Exchange>, documentType: string, config: Config,
                          extension: string, imagePath: Option<string>, content: Option<seq<byte>>,
                          finishesInTime: seq<byte> -> bool, channelId: int, channels: set<int>, requests: set<int>)
    ensures var a := AfterChannel(respond, log, documentType, config, extension, imagePath, content, finishesInTime, channelId);
      ChannelsAfterAll(channels, a.exchanges) == channels
      && RequestsAfterAll(requests, a.exchanges) == requests + HandleSet(a.request)
  {
    match GetTblDocumentPath(documentType, config)
    case Err(_) =>
    case Ok(tbl) =>
      var requestPart := RequestRun(respond, log, tbl, extension, imagePath, content, FileMode(config), channelId, finishesInTime);
      RequestRunOpens(respond, log, tbl, extension, imagePath, content, FileMode(config), channelId, finishesInTime,
                      channels, requests);
      var a := AfterChannel(respond, log, documentType, config, extension, imagePath, content, finishesInTime, channelId);
      if requestPart.result.Err? {
        assert a.exchanges == requestPart.exchanges && a.request == None;
      } else {
        var c := ScrGetResult(channelId, requestPart.result.value, 60000);
        StepAfter(channels, requests, respond, log, requestPart.exchanges, c);
        assert a.exchanges == Step(respond, log, requestPart.exchanges, c) && a.request == Some(requestPart.result.value);
      }
  }

  /** The handles the `finally` block is given are exactly those the `try` block left open: the
      channel, and the request, which is only ever opened on a channel. */
  lemma WorkRunOpens(respond: (seq<Exchange>, Call) -> Reply, log: seq<Exchange>, documentType: string, config: Config,
                     extension: string, imagePath: Option<string>, content: Option<seq<byte>>,
                     finishesInTime: seq<byte> -> bool, channels: set<int>, requests: set<int>)
    ensures var w := WorkRun(respond, log, documentType, config, extension, imagePath, content, finishesInTime);
      ChannelsAfterAll(channels, w.exchanges) == channels + HandleSet(w.channel)
      && RequestsAfterAll(requests, w.exchanges) == requests + HandleSet(w.request)
      && (w.request.Some? ==> w.channel.Some?)
  {
    var channelPart := ChannelRun(respond, log, config);
    ChannelRunOpens(respond, log, config, channels, requests);
    if channelPart.result.Ok? {
      var rest := AfterChannel(respond, log + channelPart.exchanges, documentType, config, extension, imagePath, content,
                               finishesInTime, channelPart.result.value);
      AfterChannelOpens(respond, log + channelPart.exchanges, documentType, config, extension, imagePath, content,
                        finishesInTime, channelPart.result.value, channels + {channelPart.result.value}, requests);
      AfterAllAppend(channels, requests, channelPart.exchanges, rest.exchanges);
    }
  }

  /** `performOcr` releases what it opened: unless a close raises, the channel and the request of
      the session are closed at the end and every other handle is as it was. A session that
      succeeds had its closes succeed. */
  lemma OcrRunReleases(respond: (seq<Exchange>, Call) -> Reply, resultZones: int -> Zones, log: seq<Exchange>,
                       documentType: string, config: Config, extension: string, imagePath: Option<string>,
                       content: Option<seq<byte>>, coerce: Coercion, finishesInTime: seq<byte> -> bool,
                       files: map<string, seq<byte>>, deleteFails: string -> bool, channels: set<int>, requests: set<int>)
    ensures var w := WorkRun(respond, log, documentType, config, extension, imagePath, content, finishesInTime);
      var c := CleanupRun(respond, log + w.exchanges, w.request, w.channel);
      var s := OcrRun(respond, resultZones, log, documentType, config, extension, imagePath, content, coerce,
                      finishesInTime, files, deleteFails);
      (c.result.Ok? ==>
         ChannelsAfterAll(channels, s.exchanges) == channels - HandleSet(w.channel)
         && RequestsAfterAll(requests, s.exchanges) == requests - HandleSet(w.request))
      && (s.result.Ok? ==> c.result.Ok?)
  {
    var w := WorkRun(respond, log, documentType, config, extension, imagePath, content, finishesInTime);
    var c := CleanupRun(respond, log + w.exchanges, w.request, w.channel);
    WorkRunOpens(respond, log, documentType, config, extension, imagePath, content, finishesInTime, channels, requests);
    CleanupRunCloses(respond, log + w.exchanges, w.request, w.channel, channels + HandleSet(w.channel),
                     requests + HandleSet(w.request));
    FinallyRunFiles(respond, log + w.exchanges, Decoded(w.resultId, resultZones, documentType, config, coerce),
                    w.channel, w.request, FileMode(config), imagePath, files, deleteFails);
    AfterAllAppend(channels, requests, w.exchanges, c.exchanges);
  }

  /** The engine is only asked for a result after the table lookup succeeded. */
  lemma WorkRunNeedsTable(respond: (seq<Exchange>, Call) -> Reply, log: seq<Exchange>, documentType: string, config: Config,
                          extension: string, imagePath: Option<string>, content: Option<seq<byte>>,
                          finishesInTime: seq<byte> -> bool)
    ensures WorkRun(respond, log, documentType, config, extension, imagePath, content, finishesInTime).resultId.Ok?
            ==> GetTblDocumentPath(documentType, config).Ok?
  {
  }

  /** An unknown document type fails once the channel is open and before any request exists,
      with the type in the error: the `finally` block then closes the channel only. */
  lemma UnknownTypeClosesChannelOnly(respond: (seq<Exchange>, Call) -> Reply, log: seq<Exchange>, documentType: string,
                                     config: Config, extension: string, imagePath: Option<string>,
                                     content: Option<seq<byte>>, finishesInTime: seq<byte> -> bool)
    requires GetTblDocumentPath(documentType, config).Err?
    ensures var w := WorkRun(respond, log, documentType, config, extension, imagePath, content, finishesInTime);
      var ch := ChannelRun(respond, log, config);
      w.request == None && w.exchanges == ch.exchanges
      && (ch.result.Ok? ==>
            w.resultId == Err(DocumentTypeError(documentType)) && w.channel == Some(ch.result.value)
            && CleanupCalls(w.request, w.channel) == [ScrCloseChannel(ch.result.value)])
      && (ch.result.Err? ==> w.resultId == Err(ch.result.error) && CleanupCalls(w.request, w.channel) == [])
  {
    var ch := ChannelRun(respond, log, config);
    assert ch.exchanges + [] == ch.exchanges;
  }

  /** `performOcr` never returns the decoder's null: a type without a decoder has no table, and
      the session fails before the engine is asked for a result. */
  lemma OcrRunNeverNull(respond: (seq<Exchange>, Call) -> Reply, resultZones: int -> Zones, log: seq<Exchange>,
                        documentType: string, config: Config, extension: string, imagePath: Option<string>,
                        content: Option<seq<byte>>, coerce: Coercion, finishesInTime: seq<byte> -> bool,
                        files: map<string, seq<byte>>, deleteFails: string -> bool)
    ensures OcrRun(respond, resultZones, log, documentType, config, extension, imagePath, content, coerce, finishesInTime,
                   files, deleteFails).result != Ok(None)
  {
    var w := WorkRun(respond, log, documentType, config, extension, imagePath, content, finishesInTime);
    WorkRunNeedsTable(respond, log, documentType, config, extension, imagePath, content, finishesInTime);
    if w.resultId.Ok? {
      KnownTableMeansKnownDecoder(documentType, config, resultZones(w.resultId.value), coerce);
    }
  }

  /** The `finally` block's effect on the files: none in Memory mode or when a close raises
      (whose error is then the result); otherwise the temporary image is deleted, or its
      deletion fails and that is the result. */
  lemma FinallyRunFiles(respond: (seq<Exchange>, Call) -> Reply, log: seq<Exchange>,
                        primary: Result<Option<map<string, string>>, OcrError>, channel: Option<int>, request: Option<int>,
                        fileMode: bool, imagePath: Option<string>, files: map<string, seq<byte>>,
                        deleteFails: string -> bool)
    ensures var f := FinallyRun(respond, log, primary, channel, request, fileMode, imagePath, files, deleteFails);
      var path := imagePath.GetOr("");
      var c := CleanupRun(respond, log, request, channel);
      (!fileMode ==> f.files == files)
      && (fileMode && f.result.Ok? ==> path in files && f.files == files - {path})
      && (f.files == files || f.files == files - {path})
      && (c.result.Err? ==> f.result == Err(c.result.error) && f.files == files)
      && (f.result.Ok? ==> f.result == primary)
      && f.exchanges == c.exchanges
  {
  }

  /** The temporary image of File mode: removed when the session succeeds, left alone in Memory
      mode, and at most that one file is ever removed. A close that raises skips the deletion and
      its error is the result. */
  lemma OcrRunTempFile(respond: (seq<Exchange>, Call) -> Reply, resultZones: int -> Zones, log: seq<Exchange>,
                       documentType: string, config: Config, extension: string, imagePath: Option<string>,
                       content: Option<seq<byte>>, coerce: Coercion, finishesInTime: seq<byte> -> bool,
                       files: map<string, seq<byte>>, deleteFails: string -> bool)
    ensures var s := OcrRun(respond, resultZones, log, documentType, config, extension, imagePath, content, coerce,
                            finishesInTime, files, deleteFails);
      var path := imagePath.GetOr("");
      var w := WorkRun(respond, log, documentType, config, extension, imagePath, content, finishesInTime);
      var c := CleanupRun(respond, log + w.exchanges, w.request, w.channel);
      (!FileMode(config) ==> s.files == files)
      && (FileMode(config) && s.result.Ok? ==> path in files && s.files == files - {path})
      && (s.files == files || s.files == files - {path})
      && (c.result.Err? ==> s.result == Err(c.result.error) && s.files == files)
  {
    var w := WorkRun(respond, log, documentType, config, extension, imagePath, content, finishesInTime);
    FinallyRunFiles(respond, log + w.exchanges, Decoded(w.resultId, resultZones, documentType, config, coerce),
                    w.channel, w.request, FileMode(config), imagePath, files, deleteFails);
  }

  /** In Memory mode an image without content never gets a result: no request is opened, and
      the session fails on the missing content, on the table lookup, or on an engine error. */
  lemma OcrRunWithoutContentFails(respond: (seq<Exchange>, Call) -> Reply, resultZones: int -> Zones, log: seq<Exchange>,
                                  documentType: string, config: Config, extension: string, imagePath: Option<string>,
                                  coerce: Coercion, finishesInTime: seq<byte> -> bool, files: map<string, seq<byte>>,
                                  deleteFails: string -> bool)
    requires !FileMode(config)
    ensures var w := WorkRun(respond, log, documentType, config, extension, imagePath, None, finishesInTime);
      var s := OcrRun(respond, resultZones, log, documentType, config, extension, imagePath, None, coerce, finishesInTime,
                      files, deleteFails);
      w.request == None && s.result.Err?
      && (s.result.error == NullReference || s.result.error == DocumentTypeError(documentType)
          || s.result.error.EngineCallFailed?)
  {
    var channelPart := ChannelRun(respond, log, config);
    ChannelRunResult(respond, log, config);
    if channelPart.result.Ok? {
      match GetTblDocumentPath(documentType, config)
      case Err(e) =>
      case Ok(tbl) =>
        RequestRunResult(respond, log + channelPart.exchanges, tbl, extension, imagePath, None, false,
                         channelPart.result.value, finishesInTime);
    }
    var w := WorkRun(respond, log, documentType, config, extension, imagePath, None, finishesInTime);
    CleanupRunCloses(respond, log + w.exchanges, w.request, w.channel, {}, {});
  }
}
