/** The browser-side Excel upload service: the file checks made before an
    upload, and the mapping of the server's reply, or of the exception the
    request raised, to a success with data or a failure with a message. */
module ExcelService {
  import opened Wrappers
  import opened Text

  const XLSX_TYPE := "application/vnd.openxmlformats-officedocument.spreadsheetml.sheet"
  const XLS_TYPE := "application/vnd.ms-excel"
  const ALLOWED_TYPES := [XLSX_TYPE, XLS_TYPE]
  const ALLOWED_EXTENSIONS := [".xlsx", ".xls"]
  /** 10 MiB in bytes. */
  const MAX_SIZE := 10 * 1024 * 1024

  /** A browser `File`: its name, its MIME type and its size in bytes. */
  datatype File = File(name: string, mimeType: string, size: nat)

  // ---------------------------------------------------------------- validateFile

  /** `name.toLowerCase().substring(name.lastIndexOf('.'))`: from the last dot
      on, lower-cased; a name without a dot is kept whole, because
      `substring(-1)` starts at 0. */
  function FileExtension(name: string): (ext: string)
    ensures '.' in name ==> |ext| >= 1 && ext[0] == '.' && '.' !in ext[1..]
    ensures '.' in name ==> |ext| <= |name| && Lower(name) == Lower(name)[..|name| - |ext|] + ext
    ensures '.' !in name ==> ext == Lower(name)
  {
    var dot := LastIndexOf(name, '.');
    if dot < 0 then
      NoDotAnywhere(name);
      Lower(name)
    else
      DotsAfter(name, dot);
      SubstringFrom(Lower(name), dot)
  }

  lemma NoDotAnywhere(name: string)
    requires LastIndexOf(name, '.') < 0
    ensures '.' !in name
  {
    assert forall i :: 0 <= i < |name| ==> name[i] != '.';
  }

  /** After the last dot, the lower-cased name holds no dot either. */
  lemma DotsAfter(name: string, dot: int)
    requires 0 <= dot < |name| && name[dot] == '.'
    requires forall i :: dot < i < |name| ==> name[i] != '.'
    ensures var ext := Lower(name)[dot..]; |ext| >= 1 && ext[0] == '.' && '.' !in ext[1..]
    ensures Lower(name) == Lower(name)[..dot] + Lower(name)[dot..]
  {
    var ext := Lower(name)[dot..];
    forall i | 1 <= i < |ext| ensures ext[i] != '.' {
      assert ext[i] == LowerChar(name[dot + i]);
    }
  }

  predicate TypeAccepted(f: File)
  {
    f.mimeType in ALLOWED_TYPES || FileExtension(f.name) in ALLOWED_EXTENSIONS
  }

  /** The two ways a file fails validation. */
  datatype FileError = BadType | TooLarge(size: nat)

  /** The `{ valid, error? }` result. */
  datatype Validation = Validation(valid: bool, error: Option<FileError>)

  /** `validateFile`: the type test first, then the size limit. */
  function ValidateFile(f: File): (v: Validation)
    ensures v.valid <==> TypeAccepted(f) && f.size <= MAX_SIZE
    ensures v.valid <==> v.error == None
    ensures !TypeAccepted(f) ==> v.error == Some(BadType)
    ensures TypeAccepted(f) && f.size > MAX_SIZE ==> v.error == Some(TooLarge(f.size))
  {
    if !(f.mimeType in ALLOWED_TYPES) && !(FileExtension(f.name) in ALLOWED_EXTENSIONS) then
      Validation(false, Some(BadType))
    else if f.size > MAX_SIZE then Validation(false, Some(TooLarge(f.size)))
    else Validation(true, None)
  }

  /** The extension test ignores letter case and any dots before the last
      one: a stem followed by ".XLSX" passes it whatever its MIME type. */
  lemma UpperCaseExtension(stem: string, mimeType: string, size: nat)
    ensures FileExtension(stem + ".XLSX") == ".xlsx"
    ensures ValidateFile(File(stem + ".XLSX", mimeType, size)).valid <==> size <= MAX_SIZE
  {
    var name := stem + ".XLSX";
    assert name[|stem|] == '.';
    assert LastIndexOf(name, '.') == |stem|;
    assert Lower(name)[|stem|..] == ".xlsx";
  }

  /** A name without a dot never passes the extension test, so such a file
      is accepted only on its MIME type. */
  lemma NoDotNoExtension(f: File)
    requires '.' !in f.name
    ensures ValidateFile(f).valid <==> f.mimeType in ALLOWED_TYPES && f.size <= MAX_SIZE
  {
    var ext := FileExtension(f.name);
    assert forall i :: 0 <= i < |ext| ==> ext[i] != '.';
    assert ".xlsx"[0] == '.' && ".xls"[0] == '.';
  }

  /** The limit is inclusive: a file of exactly 10 MiB of an allowed type is
      valid, and one byte more is not. */
  lemma SizeLimitInclusive(name: string, mimeType: string)
    requires mimeType in ALLOWED_TYPES
    ensures ValidateFile(File(name, mimeType, MAX_SIZE)).valid
    ensures ValidateFile(File(name, mimeType, MAX_SIZE + 1)).error == Some(TooLarge(MAX_SIZE + 1))
  {
  }

  // ---------------------------------------------------------------- uploadExcel

  const BAD_TYPE_MESSAGE := "Tipo de archivo no válido. Solo se permiten archivos .xlsx y .xls"
  const TOO_LARGE_UPLOAD_MESSAGE := "El archivo es demasiado grande. El tamaño máximo permitido es 10MB"
  const PROCESSING_MESSAGE := "Archivo recibido y en proceso de análisis"
  const COMPLETED_MESSAGE := "Archivo procesado exitosamente"
  const FAILED_MESSAGE := "Error al procesar el archivo"
  const UNKNOWN_MESSAGE := "Error desconocido al subir el archivo"
  const NO_SERVER_MESSAGE := "No se pudo conectar con el servidor. Verifica que el backend esté ejecutándose en http://localhost:8000"
  const CONNECTION_MESSAGE := "Error de conexión. Asegúrate de que el backend esté ejecutándose y sea accesible."

  /** The pre-upload checks' message for a file error. */
  function PreCheckMessage(e: FileError): string
  {
    match e
    case BadType => BAD_TYPE_MESSAGE
    case TooLarge(_) => TOO_LARGE_UPLOAD_MESSAGE
  }

  /** One validation error of a 422 reply. */
  datatype ErrorItem = ErrorItem(loc: seq<string>, msg: string)

  /** The `detail` of an error reply: a string, a list of items, or anything
      else (no detail, or a body that is not JSON). */
  datatype ErrorBody = TextDetail(text: string) | ItemsDetail(items: seq<ErrorItem>) | NoDetail

  /** JavaScript `pieces.join(sep)`. */
  function JoinText(pieces: seq<string>, sep: string): string
  {
    if |pieces| == 0 then ""
    else if |pieces| == 1 then pieces[0]
    else pieces[0] + sep + JoinText(pieces[1..], sep)
  }

  function ItemText(item: ErrorItem): string
  {
    JoinText(item.loc, ".") + ": " + item.msg
  }

  function ItemTexts(items: seq<ErrorItem>): (r: seq<string>)
    ensures |r| == |items| && forall k :: 0 <= k < |items| ==> r[k] == ItemText(items[k])
  {
    seq(|items|, k requires 0 <= k < |items| => ItemText(items[k]))
  }

  /** The message of a reply that is not ok. */
  function ErrorMessage(status: int, statusText: string, body: ErrorBody): (m: string)
    ensures body.TextDetail? ==> m == body.text
    ensures body.NoDetail? ==> m == "Error " + IntText(status) + ": " + statusText
  {
    match body
    case TextDetail(text) => text
    case ItemsDetail(items) => JoinText(ItemTexts(items), ", ")
    case NoDetail => "Error " + IntText(status) + ": " + statusText
  }

  /** The default message gives the status code back: the text between
      "Error " and the first colon reads as the status. */
  lemma StatusReadsBack(status: int, statusText: string)
    ensures var m := ErrorMessage(status, statusText, NoDetail);
      && |m| >= 6 && m[..6] == "Error "
      && ParseInt(Split(m[6..], ':')[0]) == Some(status)
  {
    var m := ErrorMessage(status, statusText, NoDetail);
    var t := IntText(status);
    NoColonInIntText(status);
    assert m[6..] == t + [':'] + (" " + statusText);
    SplitFirstField(t, ':', " " + statusText);
    ParseIntText(status);
  }

  lemma NoColonInIntText(n: int)
    ensures ':' !in IntText(n)
  {
    var t := IntText(n);
    var d := NatText(if n < 0 then -n else n);
    assert forall i :: 0 <= i < |d| ==> d[i] != ':';
    if n < 0 {
      assert t == "-" + d;
      assert forall i :: 0 <= i < |t| ==> t[i] != ':' by {
        forall i | 0 <= i < |t| ensures t[i] != ':' {
          if i > 0 { assert t[i] == d[i - 1]; }
        }
      }
    }
  }

  /** The list of validation errors can be read back from its message: when
      no item text holds a comma, splitting the message at commas gives the
      items in order, each after the first behind its joining space. */
  lemma ItemsReadBack(items: seq<ErrorItem>)
    requires |items| >= 1
    requires forall k :: 0 <= k < |items| ==> ',' !in ItemText(items[k])
    ensures var pieces := Split(ErrorMessage(0, "", ItemsDetail(items)), ',');
      && |pieces| == |items|
      && pieces[0] == ItemText(items[0])
      && forall k :: 1 <= k < |items| ==> pieces[k] == " " + ItemText(items[k])
  {
    var texts := ItemTexts(items);
    assert ErrorMessage(0, "", ItemsDetail(items)) == "" + JoinText(texts, ", ");
    SplitJoined("", texts);
  }

  lemma {:induction false} SplitJoined(pre: string, texts: seq<string>)
    requires |texts| >= 1 && ',' !in pre
    requires forall k :: 0 <= k < |texts| ==> ',' !in texts[k]
    ensures var pieces := Split(pre + JoinText(texts, ", "), ',');
      && |pieces| == |texts|
      && pieces[0] == pre + texts[0]
      && forall k :: 1 <= k < |texts| ==> pieces[k] == " " + texts[k]
    decreases |texts|
  {
    if |texts| == 1 {
      NoCommaJoined(pre, texts[0]);
      SplitNoSeparator(pre + texts[0], ',');
    } else {
      var head, rest := texts[0], texts[1..];
      NoCommaJoined(pre, head);
      assert pre + JoinText(texts, ", ") == (pre + head) + [','] + (" " + JoinText(rest, ", "));
      SplitFirstField(pre + head, ',', " " + JoinText(rest, ", "));
      assert ',' !in " ";
      SplitJoined(" ", rest);
      forall k | 1 <= k < |texts| ensures Split(pre + JoinText(texts, ", "), ',')[k] == " " + texts[k] {
        assert texts[k] == rest[k - 1];
      }
    }
  }

  lemma NoCommaJoined(a: string, b: string)
    requires ',' !in a && ',' !in b
    ensures ',' !in a + b
  {
    assert forall i :: 0 <= i < |a + b| ==> (a + b)[i] != ',' by {
      forall i | 0 <= i < |a + b| ensures (a + b)[i] != ',' {
        if i < |a| { assert (a + b)[i] == a[i]; } else { assert (a + b)[i] == b[i - |a|]; }
      }
    }
  }

  /** The `UploadExcelResponse` body of an ok reply; a missing message is
      the empty string, which is falsy. */
  datatype UploadResponse = UploadResponse(taskId: string, status: string, message: string,
                                           processedRecords: Option<int>, errors: seq<string>, warnings: seq<string>)

  /** The `{ success, data?, error? }` result. */
  datatype UploadOutcome = Uploaded(data: UploadResponse) | Rejected(error: string)

  /** `a || b` on strings. */
  function OrElse(a: string, b: string): string
  {
    if a != "" then a else b
  }

  /** The mapping of an ok reply's body by its status. */
  function StatusOutcome(data: UploadResponse): (r: UploadOutcome)
    ensures r.Uploaded? <==> data.status != "failed"
    ensures r.Rejected? ==> r.error != "" && (data.message != "" ==> r.error == data.message)
    ensures r.Uploaded? ==> r.data == data.(message := r.data.message)
    ensures r.Uploaded? && data.message != "" ==> r.data.message == data.message
    ensures r.Uploaded? && (data.status == "processing" || data.status == "completed") ==> r.data.message != ""
    ensures r.Uploaded? && data.status != "processing" && data.status != "completed" ==> r.data == data
  {
    if data.status == "processing" then Uploaded(data.(message := OrElse(data.message, PROCESSING_MESSAGE)))
    else if data.status == "completed" then Uploaded(data.(message := OrElse(data.message, COMPLETED_MESSAGE)))
    else if data.status == "failed" then Rejected(OrElse(data.message, FAILED_MESSAGE))
    else Uploaded(data)
  }

  /** A value thrown into the `catch`: an `Error` with its name and message,
      or anything else. */
  datatype Thrown = ErrorObject(name: string, message: string) | OtherValue

  /** `s.includes(sub)`. */
  predicate Contains(s: string, sub: string)
  {
    exists i :: 0 <= i <= |s| && sub <= s[i..]
  }

  /** The message the `catch` branch returns. */
  function CaughtMessage(t: Thrown): (m: string)
    ensures t.OtherValue? ==> m == UNKNOWN_MESSAGE
    ensures t.ErrorObject? && t.name == "TypeError" && Contains(t.message, "fetch") ==> m == NO_SERVER_MESSAGE
  {
    match t
    case OtherValue => UNKNOWN_MESSAGE
    case ErrorObject(name, message) =>
      if name == "TypeError" && Contains(message, "fetch") then NO_SERVER_MESSAGE
      else if name == "TypeError" && Contains(message, "Failed to fetch") then CONNECTION_MESSAGE
      else message
  }

  /** The second test of the `catch` can never decide: a message holding
      "Failed to fetch" holds "fetch", so the first test has taken it, and
      the connection message only comes back as an error's own message. */
  lemma ConnectionMessageUnreachable(t: Thrown)
    ensures CaughtMessage(t) == CONNECTION_MESSAGE ==> t.ErrorObject? && t.message == CONNECTION_MESSAGE
  {
    if t.ErrorObject? && Contains(t.message, "Failed to fetch") {
      var i :| 0 <= i <= |t.message| && "Failed to fetch" <= t.message[i..];
      FetchInside(t.message[i..]);
      assert t.message[i..][10..] == t.message[i + 10..];
    }
    MessagesDiffer();
  }

  lemma FetchInside(s: string)
    requires "Failed to fetch" <= s
    ensures "fetch" <= s[10..]
  {
    assert s[..15] == "Failed to fetch";
    assert s[10..15] == "fetch";
  }

  lemma MessagesDiffer()
    ensures NO_SERVER_MESSAGE != CONNECTION_MESSAGE && UNKNOWN_MESSAGE != CONNECTION_MESSAGE
  {
    assert |NO_SERVER_MESSAGE| != |CONNECTION_MESSAGE| && |UNKNOWN_MESSAGE| != |CONNECTION_MESSAGE|;
  }

  /** What came back from the upload request: a reply with its status, the
      `detail` of an error body and the parsed body of an ok one (or the
      error its parsing threw), or the exception `fetch` threw. */
  datatype Reply = Reply(ok: bool, status: int, statusText: string, errorBody: ErrorBody, body: Result<UploadResponse, Thrown>)
  datatype Exchange = Answered(reply: Reply) | FetchThrew(thrown: Thrown)

  /** `uploadExcel`: the checks, then the request, then the mapping. */
  function UploadExcel(f: File, exchange: Exchange): (r: UploadOutcome)
    ensures !ValidateFile(f).valid ==> r == Rejected(PreCheckMessage(ValidateFile(f).error.value))
    ensures r.Uploaded? <==> && ValidateFile(f).valid && exchange.Answered? && exchange.reply.ok
                             && exchange.reply.body.Ok? && exchange.reply.body.value.status != "failed"
    ensures r.Uploaded? ==> r.data.taskId == exchange.reply.body.value.taskId && r.data.status == exchange.reply.body.value.status
    ensures ValidateFile(f).valid && exchange.FetchThrew? ==> r == Rejected(CaughtMessage(exchange.thrown))
    ensures ValidateFile(f).valid && exchange.Answered? && !exchange.reply.ok ==>
              r == Rejected(ErrorMessage(exchange.reply.status, exchange.reply.statusText, exchange.reply.errorBody))
    ensures ValidateFile(f).valid && exchange.Answered? && exchange.reply.ok ==>
              r == match exchange.reply.body
                   case Ok(data) => StatusOutcome(data)
                   case Err(thrown) => Rejected(CaughtMessage(thrown))
  {
    var v := ValidateFile(f);
    if !v.valid then Rejected(PreCheckMessage(v.error.value))
    else
      match exchange
      case FetchThrew(thrown) => Rejected(CaughtMessage(thrown))
      case Answered(reply) =>
        if !reply.ok then Rejected(ErrorMessage(reply.status, reply.statusText, reply.errorBody))
        else
          match reply.body
          case Err(thrown) => Rejected(CaughtMessage(thrown))
          case Ok(data) => StatusOutcome(data)
  }
}
