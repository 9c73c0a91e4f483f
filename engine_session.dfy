/** One recognition session with the engine: `performOcr`, `openChannelA2ia`, `openRequestA2ia`
    and `getTblDocumentPath` of `OcrService`. */
module EngineSession {
  import opened Wrappers
  import opened Text
  import opened Jacob
  import opened OcrConstants
  import opened OcrException
  import opened OcrProperties
  import opened OcrResultUtils
  import opened A2iaEngine
  import opened ImageNormalizer
  import opened TempFiles
  import opened BufferEncoder

  // ---------------------------------------------------------------------------------------
  // Table lookup

  /** `getTblDocumentPath`: the recognition table of the first configured document type that the
      type equals ignoring case, RIB before tax assessment before identity. */
  function GetTblDocumentPath(documentType: string, config: Config): (r: Result<string, OcrError>)
    ensures var types := config.documentTypes;
      r.Ok? <==> IsDocumentType(documentType, types.rib) || IsDocumentType(documentType, types.tax)
                 || IsDocumentType(documentType, types.identity)
    ensures r.Err? ==> r.error == DocumentTypeError(documentType)
    ensures IsDocumentType(documentType, config.documentTypes.rib) ==> r == Ok(config.tblRib)
    ensures !IsDocumentType(documentType, config.documentTypes.rib) && IsDocumentType(documentType, config.documentTypes.tax)
      ==> r == Ok(config.tblTax)
    ensures (!IsDocumentType(documentType, config.documentTypes.rib) && !IsDocumentType(documentType, config.documentTypes.tax)
             && IsDocumentType(documentType, config.documentTypes.identity)) ==> r == Ok(config.tblIdentity)
  {
    var types := config.documentTypes;
    if IsDocumentType(documentType, types.rib) then Ok(config.tblRib)
    else if IsDocumentType(documentType, types.tax) then Ok(config.tblTax)
    else if IsDocumentType(documentType, types.identity) then Ok(config.tblIdentity)
    else Err(DocumentTypeError(documentType))
  }

  /** The table lookup and the decoder compare the type in the same way, so a type that has a
      table always has a decoder: the decoder's null result cannot follow a successful lookup. */
  lemma KnownTableMeansKnownDecoder(documentType: string, config: Config, zones: Zones, coerce: Coercion)
    requires GetTblDocumentPath(documentType, config).Ok?
    ensures OcrResults(documentType, config.documentTypes, zones, config.resultKeys, coerce) != Ok(None)
  {
  }

  // ---------------------------------------------------------------------------------------
  // The session protocol

  /** The transfer mode: File when `ocra2ia.mode.ocr` says so ignoring case, Memory otherwise. */
  predicate FileMode(config: Config) {
    EqualsIgnoreCase(OCR_MODE_FILE, config.modeOcr.GetOr(OCR_MODE_MEMORY))
  }

  /** The calls of `openChannelA2ia`: initialise, create the channel parameters, fill them, open
      the channel. `paramId` is the handle the second call returned. */
  function ChannelCalls(config: Config, paramId: int): seq<Call> {
    [ ScrInit(""), ScrCreateChannelParam,
      SetProperty(paramId, "cpu[1].cpuServer", config.serverHost.GetOr("")),
      SetProperty(paramId, "cpu[1].portServer", config.serverPort.GetOr("")),
      SetProperty(paramId, "cpu[1].paramdir", config.paramDir),
      ScrOpenChannelExt(paramId, 10000) ]
  }

  /** Where the engine reads the image from. */
  datatype ImageSource = FromFile(path: string) | FromMemory(buffer: seq<Variant>)

  /** The source of an image: its temporary file in File mode, its encoded bytes otherwise. */
  function SourceOf(imagePath: Option<string>, content: Option<seq<byte>>, fileMode: bool): ImageSource {
    if fileMode then FromFile(imagePath.GetOr("")) else FromMemory(Encoded(content.GetOr([])))
  }

  function SourceCalls(source: ImageSource, docId: int): (calls: seq<Call>)
    ensures |calls| == 2
  {
    match source
    case FromFile(path) =>
      [ SetProperty(docId, "image.imageSourceType", OCR_MODE_FILE),
        SetProperty(docId, "image.imageSourceTypeInfo.CaseFile.fileName", path) ]
    case FromMemory(buffer) =>
      [ SetProperty(docId, "image.imageSourceType", OCR_MODE_MEMORY),
        ScrSetBuffer(docId, "image.imageSourceTypeInfo.CaseMemory.buffer", buffer) ]
  }

  /** The calls of `openRequestA2ia`: open the table, take its default document, describe the
      image, open the request on the channel. `tableId` and `docId` are the handles the first two
      calls returned. */
  function RequestCalls(tbl: string, extension: string, source: ImageSource, channelId: int, tableId: int, docId: int)
    : (calls: seq<Call>)
    ensures |calls| == 6
  {
    [ ScrOpenDocumentTable(tbl), ScrGetDefaultDocument(tableId), SetProperty(docId, "image.inputFormat", extension) ]
    + SourceCalls(source, docId) + [ScrOpenRequest(channelId, docId)]
  }

  /** The calls of the `finally` block: close the request if one was obtained, then the channel
      if one was obtained. */
  function CleanupCalls(request: Option<int>, channel: Option<int>): seq<Call> {
    (if request.Some? then [ScrCloseRequest(request.value)] else [])
    + (if channel.Some? then [ScrCloseChannel(channel.value)] else [])
  }

  function HandleSet(h: Option<int>): set<int> {
    if h.Some? then {h.value} else {}
  }

  // ---------------------------------------------------------------------------------------
  // Reference definitions: what each part of a session does, as a function of the engine

  /** The outcome of a part of a session and the exchanges it made. */
  datatype Attempt<T> = Attempt(result: Result<T, OcrError>, exchanges: seq<Exchange>)

  /** A part that stopped because its last call raised: the engine's error is what it throws. */
  function Stopped<T>(t: seq<Exchange>): Attempt<T>
    requires RaisedLast(t)
  {
    Attempt(Err(EngineCallFailed(t[|t| - 1].reply.message)), t)
  }

  /** `openChannelA2ia`, after the exchanges `log`. */
  function ChannelRun(respond: (seq<Exchange>, Call) -> Reply, log: seq<Exchange>, config: Config): Attempt<int> {
    var t1 := Step(respond, log, [], ScrInit(""));
    if RaisedLast(t1) then Stopped(t1) else
    var t2 := Step(respond, log, t1, ScrCreateChannelParam);
    if RaisedLast(t2) then Stopped(t2) else
    var paramId := t2[1].reply.id;
    var t3 := Step(respond, log, t2, SetProperty(paramId, "cpu[1].cpuServer", config.serverHost.GetOr("")));
    if RaisedLast(t3) then Stopped(t3) else
    var t4 := Step(respond, log, t3, SetProperty(paramId, "cpu[1].portServer", config.serverPort.GetOr("")));
    if RaisedLast(t4) then Stopped(t4) else
    var t5 := Step(respond, log, t4, SetProperty(paramId, "cpu[1].paramdir", config.paramDir));
    if RaisedLast(t5) then Stopped(t5) else
    var t6 := Step(respond, log, t5, ScrOpenChannelExt(paramId, 10000));
    if RaisedLast(t6) then Stopped(t6) else Attempt(Ok(t6[5].reply.id), t6)
  }

  /** `trasformImagetoJacobOject` as it ends: no content throws, a conversion that does not
      finish in time is refused, otherwise the encoded bytes. */
  function Conversion(content: Option<seq<byte>>, finishesInTime: seq<byte> -> bool): Result<seq<Variant>, OcrError> {
    match content
    case None => Err(NullReference)
    case Some(bytes) => if finishesInTime(bytes) then Ok(Encoded(bytes)) else Err(TimeoutTransformImage)
  }

  /** The image part of `openRequestA2ia`, continuing the exchanges `t` on the document `docId`. */
  function SourceRun(respond: (seq<Exchange>, Call) -> Reply, log: seq<Exchange>, t: seq<Exchange>, docId: int,
                     imagePath: Option<string>, content: Option<seq<byte>>, fileMode: bool,
                     finishesInTime: seq<byte> -> bool): Attempt<()> {
    if fileMode then
      var t4 := Step(respond, log, t, SetProperty(docId, "image.imageSourceType", OCR_MODE_FILE));
      if RaisedLast(t4) then Stopped(t4) else
      var t5 := Step(respond, log, t4, SetProperty(docId, "image.imageSourceTypeInfo.CaseFile.fileName", imagePath.GetOr("")));
      if RaisedLast(t5) then Stopped(t5) else Attempt(Ok(()), t5)
    else
      var t4 := Step(respond, log, t, SetProperty(docId, "image.imageSourceType", OCR_MODE_MEMORY));
      if RaisedLast(t4) then Stopped(t4) else
      match Conversion(content, finishesInTime)
      case Err(e) => Attempt(Err(e), t4)
      case Ok(buffer) =>
        var t5 := Step(respond, log, t4, ScrSetBuffer(docId, "image.imageSourceTypeInfo.CaseMemory.buffer", buffer));
        if RaisedLast(t5) then Stopped(t5) else Attempt(Ok(()), t5)
  }

  /** The first two calls of `openRequestA2ia`: open the table, take its default document. */
  function DocumentRun(respond: (seq<Exchange>, Call) -> Reply, log: seq<Exchange>, tbl: string): Attempt<int> {
    var t1 := Step(respond, log, [], ScrOpenDocumentTable(tbl));
    if RaisedLast(t1) then Stopped(t1) else
    var t2 := Step(respond, log, t1, ScrGetDefaultDocument(t1[0].reply.id));
    if RaisedLast(t2) then Stopped(t2) else Attempt(Ok(t2[1].reply.id), t2)
  }

  /** The rest of `openRequestA2ia` once the default document `docId` is known: the input format,
      the image, then the request on the channel. */
  function DescribeAndOpenRun(respond: (seq<Exchange>, Call) -> Reply, log: seq<Exchange>, t: seq<Exchange>, docId: int,
                              extension: string, imagePath: Option<string>, content: Option<seq<byte>>, fileMode: bool,
                              channelId: int, finishesInTime: seq<byte> -> bool): Attempt<int> {
    var t3 := Step(respond, log, t, SetProperty(docId, "image.inputFormat", extension));
    if RaisedLast(t3) then Stopped(t3) else
    var described := SourceRun(respond, log, t3, docId, imagePath, content, fileMode, finishesInTime);
    if described.result.Err? then Attempt(Err(described.result.error), described.exchanges) else
    var t6 := Step(respond, log, described.exchanges, ScrOpenRequest(channelId, docId));
    if RaisedLast(t6) then Stopped(t6) else Attempt(Ok(t6[|t6| - 1].reply.id), t6)
  }

  /** `openRequestA2ia`, after the exchanges `log`, once the table path is known. */
  function RequestRun(respond: (seq<Exchange>, Call) -> Reply, log: seq<Exchange>, tbl: string, extension: string,
                      imagePath: Option<string>, content: Option<seq<byte>>, fileMode: bool, channelId: int,
                      finishesInTime: seq<byte> -> bool): Attempt<int> {
    var document := DocumentRun(respond, log, tbl);
    if document.result.Err? then document
    else DescribeAndOpenRun(respond, log, document.exchanges, document.result.value, extension, imagePath, content,
                            fileMode, channelId, finishesInTime)
  }

  /** The `finally` block's engine calls, after the exchanges `log`: the close calls in order,
      until one raises. */
  function CleanupRun(respond: (seq<Exchange>, Call) -> Reply, log: seq<Exchange>, request: Option<int>,
                      channel: Option<int>): Attempt<()> {
    var t := RunCalls(respond, log, [], CleanupCalls(request, channel));
    if RaisedLast(t) then Stopped(t) else Attempt(Ok(()), t)
  }

  /** Where the engine calls of the `try` block of `performOcr` end once the channel is open:
      the handle of the recognition result, or the error that stopped them; their exchanges; and
      the request they obtained. */
  datatype Requested = Requested(resultId: Result<int, OcrError>, exchanges: seq<Exchange>, request: Option<int>)

  /** The request on the open channel `channelId`, then the wait for its result, after the
      exchanges `log`. The table lookup fails before any call for an unknown document type. */
  function AfterChannel(respond: (seq<Exchange>, Call) -> Reply, log: seq<Exchange>, documentType: string, config: Config,
                        extension: string, imagePath: Option<string>, content: Option<seq<byte>>,
                        finishesInTime: seq<byte> -> bool, channelId: int): Requested {
    match GetTblDocumentPath(documentType, config)
    case Err(e) => Requested(Err(e), [], None)
    case Ok(tbl) =>
      var requestPart := RequestRun(respond, log, tbl, extension, imagePath, content, FileMode(config), channelId, finishesInTime);
      if requestPart.result.Err? then Requested(Err(requestPart.result.error), requestPart.exchanges, None) else
      var requestId := requestPart.result.value;
      var u := Step(respond, log, requestPart.exchanges, ScrGetResult(channelId, requestId, 60000));
      if RaisedLast(u) then Requested(Err(EngineCallFailed(u[|u| - 1].reply.message)), u, Some(requestId))
      else Requested(Ok(u[|u| - 1].reply.id), u, Some(requestId))
  }

  /** Where the engine calls of the `try` block of `performOcr` end, with the channel too. */
  datatype Work = Work(resultId: Result<int, OcrError>, exchanges: seq<Exchange>, channel: Option<int>, request: Option<int>)

  /** The engine calls of the `try` block of `performOcr`, after the exchanges `log`. */
  function WorkRun(respond: (seq<Exchange>, Call) -> Reply, log: seq<Exchange>, documentType: string, config: Config,
                   extension: string, imagePath: Option<string>, content: Option<seq<byte>>,
                   finishesInTime: seq<byte> -> bool): Work {
    var channelPart := ChannelRun(respond, log, config);
    if channelPart.result.Err? then Work(Err(channelPart.result.error), channelPart.exchanges, None, None) else
    var rest := AfterChannel(respond, log + channelPart.exchanges, documentType, config, extension, imagePath, content,
                             finishesInTime, channelPart.result.value);
    Work(rest.resultId, channelPart.exchanges + rest.exchanges, Some(channelPart.result.value), rest.request)
  }

  /** What `performOcr` returns, the exchanges it made and the temporary files it leaves. */
  datatype Session = Session(result: Result<Option<map<string, string>>, OcrError>, exchanges: seq<Exchange>,
                             files: map<string, seq<byte>>)

  /** The `finally` block after the exchanges `log`, when the `try` block ended with `primary`:
      close the request and the channel; then, in File mode, delete the temporary image from
      `files`, where those satisfying `deleteFails` cannot be deleted. An exception here replaces
      `primary`. */
  function FinallyRun(respond: (seq<Exchange>, Call) -> Reply, log: seq<Exchange>,
                      primary: Result<Option<map<string, string>>, OcrError>, channel: Option<int>, request: Option<int>,
                      fileMode: bool, imagePath: Option<string>, files: map<string, seq<byte>>,
                      deleteFails: string -> bool): Session {
    var c := CleanupRun(respond, log, request, channel);
    if c.result.Err? then Session(Err(c.result.error), c.exchanges, files)
    else if !fileMode then Session(primary, c.exchanges, files)
    else
      var path := imagePath.GetOr("");
      if path in files && !deleteFails(path) then Session(primary, c.exchanges, files - {path})
      else Session(Err(DeleteFileError(path)), c.exchanges, files)
  }

  /** The result of the `try` block: the engine's result decoded, or the error that ended it. */
  function Decoded(resultId: Result<int, OcrError>, resultZones: int -> Zones, documentType: string, config: Config,
                   coerce: Coercion): Result<Option<map<string, string>>, OcrError> {
    match resultId
    case Err(e) => Err(e)
    case Ok(id) => OcrResults(documentType, config.documentTypes, resultZones(id), config.resultKeys, coerce)
  }

  /** `performOcr`, after the exchanges `log`, on the temporary files `files`. */
  function OcrRun(respond: (seq<Exchange>, Call) -> Reply, resultZones: int -> Zones, log: seq<Exchange>,
                  documentType: string, config: Config, extension: string, imagePath: Option<string>,
                  content: Option<seq<byte>>, coerce: Coercion, finishesInTime: seq<byte> -> bool,
                  files: map<string, seq<byte>>, deleteFails: string -> bool): Session {
    var w := WorkRun(respond, log, documentType, config, extension, imagePath, content, finishesInTime);
    var f := FinallyRun(respond, log + w.exchanges, Decoded(w.resultId, resultZones, documentType, config, coerce),
                        w.channel, w.request, FileMode(config), imagePath, files, deleteFails);
    Session(f.result, w.exchanges + f.exchanges, f.files)
  }

  // ---------------------------------------------------------------------------------------
  // The methods

  /** `Dispatch.call` inside a part of a session: the exchanges of the part so far are `t`, made
      after `log0`. */
  method Send(engine: Engine, c: Call, ghost log0: seq<Exchange>, ghost t: seq<Exchange>)
    returns (reply: Reply, ghost t': seq<Exchange>)
    requires engine.log == log0 + t
    modifies engine
    ensures t' == Step(engine.respond, log0, t, c) && reply == t'[|t|].reply
    ensures engine.log == log0 + t'
  {
    reply := engine.Call(c);
    t' := t + [Exchange(c, reply)];
    assert engine.log == (log0 + t) + [Exchange(c, reply)];
  }

  /** `openChannelA2ia`: any call may raise, which ends the method with that call's error. */
  method OpenChannelA2ia(engine: Engine, config: Config) returns (r: Result<int, OcrError>, ghost t: seq<Exchange>)
    modifies engine
    ensures Attempt(r, t) == ChannelRun(engine.respond, old(engine.log), config)
    ensures engine.log == old(engine.log) + t
  {
    ghost var log0 := engine.log;
    var reply;
    reply, t := Send(engine, ScrInit(""), log0, []);
    if reply.Raised? {
      return Err(EngineCallFailed(reply.message)), t;
    }
    var paramReply;
    paramReply, t := Send(engine, ScrCreateChannelParam, log0, t);
    if paramReply.Raised? {
      return Err(EngineCallFailed(paramReply.message)), t;
    }
    var paramId := paramReply.id;
    reply, t := Send(engine, SetProperty(paramId, "cpu[1].cpuServer", config.serverHost.GetOr("")), log0, t);
    if reply.Raised? {
      return Err(EngineCallFailed(reply.message)), t;
    }
    reply, t := Send(engine, SetProperty(paramId, "cpu[1].portServer", config.serverPort.GetOr("")), log0, t);
    if reply.Raised? {
      return Err(EngineCallFailed(reply.message)), t;
    }
    reply, t := Send(engine, SetProperty(paramId, "cpu[1].paramdir", config.paramDir), log0, t);
    if reply.Raised? {
      return Err(EngineCallFailed(reply.message)), t;
    }
    reply, t := Send(engine, ScrOpenChannelExt(paramId, 10000), log0, t);
    if reply.Raised? {
      return Err(EngineCallFailed(reply.message)), t;
    }
    return Ok(reply.id), t;
  }

  /** The first two calls of `openRequestA2ia`. */
  method OpenDefaultDocument(engine: Engine, tbl: string) returns (r: Result<int, OcrError>, ghost t: seq<Exchange>)
    modifies engine
    ensures Attempt(r, t) == DocumentRun(engine.respond, old(engine.log), tbl)
    ensures engine.log == old(engine.log) + t
  {
    ghost var log0 := engine.log;
    var tblReply;
    tblReply, t := Send(engine, ScrOpenDocumentTable(tbl), log0, []);
    if tblReply.Raised? {
      return Err(EngineCallFailed(tblReply.message)), t;
    }
    var docReply;
    docReply, t := Send(engine, ScrGetDefaultDocument(tblReply.id), log0, t);
    if docReply.Raised? {
      return Err(EngineCallFailed(docReply.message)), t;
    }
    return Ok(docReply.id), t;
  }

  /** The image part of `openRequestA2ia`: in File mode the file name, in Memory mode the image
      converted and set as the buffer. `finishesInTime` stands for the conversion tasks ending
      before the configured delay. */
  method SetImageSource(engine: Engine, image: ImageBean, docId: int, config: Config, finishesInTime: seq<byte> -> bool,
                        ghost log0: seq<Exchange>, ghost t: seq<Exchange>)
    returns (o: Outcome<OcrError>, ghost t': seq<Exchange>)
    requires FileMode(config) ==> image.imagePath.Some?
    requires engine.log == log0 + t
    modifies engine
    ensures var a := SourceRun(engine.respond, log0, t, docId, image.imagePath, image.content, FileMode(config), finishesInTime);
      a.exchanges == t' && (o == Pass <==> a.result.Ok?) && (o.Fail? ==> a.result == Err(o.error))
    ensures engine.log == log0 + t'
  {
    var reply;
    if FileMode(config) {
      reply, t' := Send(engine, SetProperty(docId, "image.imageSourceType", OCR_MODE_FILE), log0, t);
      if reply.Raised? {
        return Fail(EngineCallFailed(reply.message)), t';
      }
      reply, t' := Send(engine, SetProperty(docId, "image.imageSourceTypeInfo.CaseFile.fileName", image.imagePath.value), log0, t');
    } else {
      reply, t' := Send(engine, SetProperty(docId, "image.imageSourceType", OCR_MODE_MEMORY), log0, t);
      if reply.Raised? {
        return Fail(EngineCallFailed(reply.message)), t';
      }
      var completes := image.content.Some? && finishesInTime(image.content.value);
      var buffer := TransformImageToJacobObject(image.content, config.numberOfByteBySingleThread, completes);
      if buffer.Err? {
        return Fail(buffer.error), t';
      }
      reply, t' := Send(engine, ScrSetBuffer(docId, "image.imageSourceTypeInfo.CaseMemory.buffer", buffer.value), log0, t');
    }
    o := if reply.Raised? then Fail(EngineCallFailed(reply.message)) else Pass;
  }

  /** `openRequestA2ia`. The table lookup runs first, as the argument of the first call, and
      fails for an unknown document type before any call is made. */
  method OpenRequestA2ia(engine: Engine, image: ImageBean, documentType: string, channelId: int, config: Config,
                         finishesInTime: seq<byte> -> bool)
    returns (r: Result<int, OcrError>, ghost t: seq<Exchange>)
    requires image.extension.Some? && (FileMode(config) ==> image.imagePath.Some?)
    modifies engine
    ensures match GetTblDocumentPath(documentType, config)
      case Err(e) => r == Err(e) && t == []
      case Ok(tbl) =>
        Attempt(r, t) == RequestRun(engine.respond, old(engine.log), tbl, image.extension.value, image.imagePath,
                                    image.content, FileMode(config), channelId, finishesInTime)
    ensures engine.log == old(engine.log) + t
  {
    t := [];
    var tbl := GetTblDocumentPath(documentType, config);
    if tbl.Err? {
      return Err(tbl.error), t;
    }
    ghost var log0 := engine.log;
    var document;
    document, t := OpenDefaultDocument(engine, tbl.value);
    if document.Err? {
      return Err(document.error), t;
    }
    var docId := document.value;
    var reply;
    reply, t := Send(engine, SetProperty(docId, "image.inputFormat", image.extension.value), log0, t);
    if reply.Raised? {
      return Err(EngineCallFailed(reply.message)), t;
    }
    var described;
    described, t := SetImageSource(engine, image, docId, config, finishesInTime, log0, t);
    if described.Fail? {
      return Err(described.error), t;
    }
    reply, t := Send(engine, ScrOpenRequest(channelId, docId), log0, t);
    if reply.Raised? {
      return Err(EngineCallFailed(reply.message)), t;
    }
    return Ok(reply.id), t;
  }

  /** The `finally` block's engine calls. They are not guarded one by one: a close that raises
      ends the block, and its error replaces whatever `performOcr` was about to return. */
  method CloseSession(engine: Engine, request: Option<int>, channel: Option<int>)
    returns (o: Outcome<OcrError>, ghost cleanup: seq<Exchange>)
    modifies engine
    ensures var c := CleanupRun(engine.respond, old(engine.log), request, channel);
      cleanup == c.exchanges && (o == Pass <==> c.result.Ok?) && (o.Fail? ==> c.result == Err(o.error))
    ensures engine.log == old(engine.log) + cleanup
  {
    ghost var log0 := engine.log;
    ghost var calls := CleanupCalls(request, channel);
    cleanup := [];
    var reply;
    if request.Some? {
      reply, cleanup := Send(engine, ScrCloseRequest(request.value), log0, cleanup);
      assert RunCalls(engine.respond, log0, [], calls) == RunCalls(engine.respond, log0, cleanup, calls);
      if reply.Raised? {
        return Fail(EngineCallFailed(reply.message)), cleanup;
      }
    }
    if channel.Some? {
      ghost var before := cleanup;
      assert calls[|before|] == ScrCloseChannel(channel.value);
      reply, cleanup := Send(engine, ScrCloseChannel(channel.value), log0, cleanup);
      assert RunCalls(engine.respond, log0, before, calls) == RunCalls(engine.respond, log0, cleanup, calls);
      if reply.Raised? {
        return Fail(EngineCallFailed(reply.message)), cleanup;
      }
    }
    return Pass, cleanup;
  }

  /** The engine calls of the `try` block once the channel is open: open the request, wait for
      the result. */
  method AwaitResult(engine: Engine, image: ImageBean, documentType: string, config: Config,
                     finishesInTime: seq<byte> -> bool, channelId: int)
    returns (resultId: Result<int, OcrError>, request: Option<int>, ghost t: seq<Exchange>)
    requires image.extension.Some? && (FileMode(config) ==> image.imagePath.Some?)
    modifies engine
    ensures Requested(resultId, t, request)
            == AfterChannel(engine.respond, old(engine.log), documentType, config, image.extension.value, image.imagePath,
                            image.content, finishesInTime, channelId)
    ensures engine.log == old(engine.log) + t
  {
    ghost var log0 := engine.log;
    request := None;
    var requestPart;
    requestPart, t := OpenRequestA2ia(engine, image, documentType, channelId, config, finishesInTime);
    if requestPart.Err? {
      return Err(requestPart.error), request, t;
    }
    request := Some(requestPart.value);
    var reply;
    reply, t := Send(engine, ScrGetResult(channelId, requestPart.value, 60000), log0, t);
    resultId := if reply.Raised? then Err(EngineCallFailed(reply.message)) else Ok(reply.id);
  }

  /** The engine calls of the `try` block of `performOcr`: open the channel, open the request,
      wait for the result. Any exception ends the block with its error; the handles obtained so
      far are returned for the `finally` block to close. */
  method RunSession(engine: Engine, image: ImageBean, documentType: string, config: Config, finishesInTime: seq<byte> -> bool)
    returns (resultId: Result<int, OcrError>, channel: Option<int>, request: Option<int>, ghost t: seq<Exchange>)
    requires image.extension.Some? && (FileMode(config) ==> image.imagePath.Some?)
    modifies engine
    ensures Work(resultId, t, channel, request)
            == WorkRun(engine.respond, old(engine.log), documentType, config, image.extension.value, image.imagePath,
                       image.content, finishesInTime)
    ensures engine.log == old(engine.log) + t
  {
    ghost var log0 := engine.log;
    var channelPart;
    channelPart, t := OpenChannelA2ia(engine, config);
    if channelPart.Err? {
      return Err(channelPart.error), None, None, t;
    }
    ghost var rt;
    resultId, request, rt := AwaitResult(engine, image, documentType, config, finishesInTime, channelPart.value);
    AppendAssoc(log0, t, rt);
    channel, t := Some(channelPart.value), t + rt;
  }

  /** The `finally` block of `performOcr`. */
  method Finish(engine: Engine, store: FileStore, primary: Result<Option<map<string, string>>, OcrError>,
                channel: Option<int>, request: Option<int>, config: Config, image: ImageBean)
    returns (r: Result<Option<map<string, string>>, OcrError>, ghost t: seq<Exchange>)
    requires FileMode(config) ==> image.imagePath.Some?
    modifies engine, store
    ensures Session(r, t, store.files)
            == FinallyRun(engine.respond, old(engine.log), primary, channel, request, FileMode(config), image.imagePath,
                          old(store.files), store.deleteFails)
    ensures engine.log == old(engine.log) + t
  {
    var closed;
    closed, t := CloseSession(engine, request, channel);
    if closed.Fail? {
      return Err(closed.error), t;
    }
    r := primary;
    if FileMode(config) {
      var deleted := store.Delete(image.imagePath.value);
      if !deleted {
        r := Err(DeleteFileError(image.imagePath.value));
      }
    }
  }

  /** `performOcr`: the session, then the `finally` block. */
  method PerformOcr(engine: Engine, image: ImageBean, documentType: string, config: Config, store: FileStore,
                    coerce: Coercion, finishesInTime: seq<byte> -> bool)
    returns (r: Result<Option<map<string, string>>, OcrError>, ghost t: seq<Exchange>)
    requires image.extension.Some? && (FileMode(config) ==> image.imagePath.Some?)
    modifies engine, store
    ensures var s := OcrRun(engine.respond, engine.resultZones, old(engine.log), documentType, config, image.extension.value,
                            image.imagePath, image.content, coerce, finishesInTime, old(store.files), store.deleteFails);
      r == s.result && t == s.exchanges && store.files == s.files
    ensures engine.log == old(engine.log) + t
  {
    ghost var log0 := engine.log;
    var resultId, channel, request;
    resultId, channel, request, t := RunSession(engine, image, documentType, config, finishesInTime);
    var primary;
    if resultId.Ok? {
      primary := GetOcrResults(documentType, config.documentTypes, engine.resultZones(resultId.value), config.resultKeys, coerce);
    } else {
      primary := Err(resultId.error);
    }
    ghost var ct;
    r, ct := Finish(engine, store, primary, channel, request, config, image);
    AppendAssoc(log0, t, ct);
    t := t + ct;
  }
}
