/**
 * A stored file record: its download and transfer statuses (kept as
 * nullable strings naming a closed enum), the status tests, the copy that
 * refreshes two source fields, and the mapping from a database row.
 */
module Files {
  import opened Wrappers

  datatype DownloadStatus = Idle | Downloading | Paused | Completed | Error

  datatype TransferStatus = Idle | Transferring | Completed | Error

  function DownloadName(s: DownloadStatus): string
  {
    match s
    case Idle => "idle"
    case Downloading => "downloading"
    case Paused => "paused"
    case Completed => "completed"
    case Error => "error"
  }

  function TransferName(s: TransferStatus): string
  {
    match s
    case Idle => "idle"
    case Transferring => "transferring"
    case Completed => "completed"
    case Error => "error"
  }

  /** `DownloadStatus.valueOf`: the constant with exactly this name, or None where Java throws. */
  function ParseDownloadStatus(name: string): (r: Option<DownloadStatus>)
    ensures r.Some? ==> DownloadName(r.value) == name
    ensures r.None? ==> forall s: DownloadStatus :: DownloadName(s) != name
  {
    if name == "idle" then Some(DownloadStatus.Idle)
    else if name == "downloading" then Some(DownloadStatus.Downloading)
    else if name == "paused" then Some(DownloadStatus.Paused)
    else if name == "completed" then Some(DownloadStatus.Completed)
    else if name == "error" then Some(DownloadStatus.Error)
    else None
  }

  /** `TransferStatus.valueOf`. */
  function ParseTransferStatus(name: string): (r: Option<TransferStatus>)
    ensures r.Some? ==> TransferName(r.value) == name
    ensures r.None? ==> forall s: TransferStatus :: TransferName(s) != name
  {
    if name == "idle" then Some(TransferStatus.Idle)
    else if name == "transferring" then Some(TransferStatus.Transferring)
    else if name == "completed" then Some(TransferStatus.Completed)
    else if name == "error" then Some(TransferStatus.Error)
    else None
  }

  /** The download statuses are exactly the five names, and parsing inverts naming. */
  lemma DownloadStatusNames()
    ensures forall s: DownloadStatus :: ParseDownloadStatus(DownloadName(s)) == Some(s)
    ensures forall name: string :: ParseDownloadStatus(name).Some? <==>
      name in ["idle", "downloading", "paused", "completed", "error"]
    ensures forall name: string, s :: ParseDownloadStatus(name) == Some(s) ==> DownloadName(s) == name
  {
  }

  /** The transfer statuses are exactly the four names, and parsing inverts naming. */
  lemma TransferStatusNames()
    ensures forall s: TransferStatus :: ParseTransferStatus(TransferName(s)) == Some(s)
    ensures forall name: string :: ParseTransferStatus(name).Some? <==>
      name in ["idle", "transferring", "completed", "error"]
    ensures forall name: string, s :: ParseTransferStatus(name) == Some(s) ==> TransferName(s) == name
  {
  }

  /** `valueOf` was handed a string that names no constant. */
  datatype StatusError = NoEnumConstant(name: string)

  datatype FileRecord = FileRecord(
    id: int,
    uniqueId: Option<string>,
    telegramId: int,
    chatId: int,
    messageId: int,
    mediaAlbumId: int,
    date: int,
    hasSensitiveContent: bool,
    size: int,
    downloadedSize: int,
    fileType: Option<string>,
    mimeType: Option<string>,
    fileName: Option<string>,
    thumbnail: Option<string>,
    caption: Option<string>,
    localPath: Option<string>,
    downloadStatus: Option<string>,
    transferStatus: Option<string>,
    startDate: int,
    completionDate: Option<int>)

  /**
   * Does the record's download status equal `status` (null meaning null)?
   * A stored name that is no status makes `valueOf` throw, unless both
   * sides are null.
   */
  function IsDownloadStatus(rec: FileRecord, status: Option<DownloadStatus>): (r: Result<bool, StatusError>)
    ensures status.None? ==> (r == Success(true) <==> rec.downloadStatus.None?)
    ensures status.Some? ==> (r == Success(true) <==> rec.downloadStatus == Some(DownloadName(status.value)))
    ensures r.Failure? <==> rec.downloadStatus.Some? && ParseDownloadStatus(rec.downloadStatus.value).None?
  {
    DownloadStatusNames();
    if status.None? && rec.downloadStatus.None? then Success(true)
    else if rec.downloadStatus.None? then Success(false)
    else match ParseDownloadStatus(rec.downloadStatus.value)
      case None => Failure(NoEnumConstant(rec.downloadStatus.value))
      case Some(s) => Success(Some(s) == status)
  }

  /** The same test over the transfer status. */
  function IsTransferStatus(rec: FileRecord, status: Option<TransferStatus>): (r: Result<bool, StatusError>)
    ensures status.None? ==> (r == Success(true) <==> rec.transferStatus.None?)
    ensures status.Some? ==> (r == Success(true) <==> rec.transferStatus == Some(TransferName(status.value)))
    ensures r.Failure? <==> rec.transferStatus.Some? && ParseTransferStatus(rec.transferStatus.value).None?
  {
    TransferStatusNames();
    if status.None? && rec.transferStatus.None? then Success(true)
    else if rec.transferStatus.None? then Success(false)
    else match ParseTransferStatus(rec.transferStatus.value)
      case None => Failure(NoEnumConstant(rec.transferStatus.value))
      case Some(s) => Success(Some(s) == status)
  }

  /** A record is in at most one download status. */
  lemma DownloadStatusUnique(rec: FileRecord, a: DownloadStatus, b: DownloadStatus)
    requires IsDownloadStatus(rec, Some(a)) == Success(true)
    requires IsDownloadStatus(rec, Some(b)) == Success(true)
    ensures a == b
  {
    DownloadStatusNames();
  }

  /** A record is in at most one transfer status. */
  lemma TransferStatusUnique(rec: FileRecord, a: TransferStatus, b: TransferStatus)
    requires IsTransferStatus(rec, Some(a)) == Success(true)
    requires IsTransferStatus(rec, Some(b)) == Success(true)
    ensures a == b
  {
    TransferStatusNames();
  }

  /** The record with a new id and downloaded size, every other field as it was. */
  function WithSourceField(rec: FileRecord, id: int, downloadedSize: int): (r: FileRecord)
    ensures r.id == id && r.downloadedSize == downloadedSize
    ensures r.(id := rec.id, downloadedSize := rec.downloadedSize) == rec
  {
    FileRecord(id, rec.uniqueId, rec.telegramId, rec.chatId, rec.messageId, rec.mediaAlbumId, rec.date,
      rec.hasSensitiveContent, rec.size, downloadedSize, rec.fileType, rec.mimeType, rec.fileName,
      rec.thumbnail, rec.caption, rec.localPath, rec.downloadStatus, rec.transferStatus, rec.startDate,
      rec.completionDate)
  }

  /** A database row: every column may be null. The sensitive-content flag is read as a boolean on Postgres and as an integer elsewhere. */
  datatype Row = Row(
    id: Option<int>,
    uniqueId: Option<string>,
    telegramId: Option<int>,
    chatId: Option<int>,
    messageId: Option<int>,
    mediaAlbumId: Option<int>,
    date: Option<int>,
    sensitiveAsBool: Option<bool>,
    sensitiveAsInt: Option<int>,
    size: Option<int>,
    downloadedSize: Option<int>,
    fileType: Option<string>,
    mimeType: Option<string>,
    fileName: Option<string>,
    thumbnail: Option<string>,
    caption: Option<string>,
    localPath: Option<string>,
    downloadStatus: Option<string>,
    transferStatus: Option<string>,
    startDate: Option<int>,
    completionDate: Option<int>)

  /** A null column unboxed into a primitive record component. */
  datatype RowError = NullPrimitive(column: string)

  /** The sensitive-content column as the dialect reads it; a non-zero integer is true. */
  function SensitiveColumn(row: Row, postgres: bool): (r: Option<bool>)
    ensures postgres ==> r == row.sensitiveAsBool
    ensures !postgres ==> (r.None? <==> row.sensitiveAsInt.None?)
    ensures !postgres && r.Some? ==> (r.value <==> row.sensitiveAsInt.value != 0)
  {
    if postgres then row.sensitiveAsBool
    else if row.sensitiveAsInt.Some? then Some(row.sensitiveAsInt.value != 0)
    else None
  }

  /** Every column that is unboxed without a default is present. */
  predicate PrimitivesPresent(row: Row, postgres: bool)
  {
    row.id.Some? && row.telegramId.Some? && row.chatId.Some? && row.messageId.Some? &&
    row.date.Some? && SensitiveColumn(row, postgres).Some? && row.size.Some? && row.downloadedSize.Some?
  }

  /**
   * `ROW_MAPPER`: the record a row maps to. A null album id or start date
   * becomes 0, a null completion date stays null, and a null in any other
   * primitive column is the unboxing failure, reported for the first such
   * column in constructor order.
   */
  function FromRow(row: Row, postgres: bool): (r: Result<FileRecord, RowError>)
    ensures r.Success? <==> PrimitivesPresent(row, postgres)
    ensures r.Success? ==>
      r.value.mediaAlbumId == row.mediaAlbumId.GetOr(0) &&
      r.value.startDate == row.startDate.GetOr(0) &&
      r.value.completionDate == row.completionDate &&
      r.value.downloadStatus == row.downloadStatus &&
      r.value.transferStatus == row.transferStatus &&
      Some(r.value.id) == row.id && Some(r.value.telegramId) == row.telegramId &&
      Some(r.value.chatId) == row.chatId && Some(r.value.messageId) == row.messageId &&
      Some(r.value.hasSensitiveContent) == SensitiveColumn(row, postgres)
    ensures r.Success? ==>
      r.value.uniqueId == row.uniqueId && Some(r.value.date) == row.date &&
      Some(r.value.size) == row.size && Some(r.value.downloadedSize) == row.downloadedSize &&
      r.value.fileType == row.fileType && r.value.mimeType == row.mimeType &&
      r.value.fileName == row.fileName && r.value.thumbnail == row.thumbnail &&
      r.value.caption == row.caption && r.value.localPath == row.localPath
    ensures row.id.None? ==> r == Failure(NullPrimitive("id"))
    ensures row.id.Some? && row.telegramId.None? ==> r == Failure(NullPrimitive("telegram_id"))
    ensures row.id.Some? && row.telegramId.Some? && row.chatId.None? ==> r == Failure(NullPrimitive("chat_id"))
    ensures row.id.Some? && row.telegramId.Some? && row.chatId.Some? && row.messageId.None? ==>
      r == Failure(NullPrimitive("message_id"))
    ensures row.id.Some? && row.telegramId.Some? && row.chatId.Some? && row.messageId.Some? && row.date.None? ==>
      r == Failure(NullPrimitive("date"))
    ensures (row.id.Some? && row.telegramId.Some? && row.chatId.Some? && row.messageId.Some? && row.date.Some? &&
      SensitiveColumn(row, postgres).None?) ==> r == Failure(NullPrimitive("has_sensitive_content"))
    ensures (row.id.Some? && row.telegramId.Some? && row.chatId.Some? && row.messageId.Some? && row.date.Some? &&
      SensitiveColumn(row, postgres).Some? && row.size.None?) ==> r == Failure(NullPrimitive("size"))
    ensures (row.id.Some? && row.telegramId.Some? && row.chatId.Some? && row.messageId.Some? && row.date.Some? &&
      SensitiveColumn(row, postgres).Some? && row.size.Some? && row.downloadedSize.None?) ==>
      r == Failure(NullPrimitive("downloaded_size"))
  {
    var sensitive := SensitiveColumn(row, postgres);
    if row.id.None? then Failure(NullPrimitive("id"))
    else if row.telegramId.None? then Failure(NullPrimitive("telegram_id"))
    else if row.chatId.None? then Failure(NullPrimitive("chat_id"))
    else if row.messageId.None? then Failure(NullPrimitive("message_id"))
    else if row.date.None? then Failure(NullPrimitive("date"))
    else if sensitive.None? then Failure(NullPrimitive("has_sensitive_content"))
    else if row.size.None? then Failure(NullPrimitive("size"))
    else if row.downloadedSize.None? then Failure(NullPrimitive("downloaded_size"))
    else Success(FileRecord(
      row.id.value, row.uniqueId, row.telegramId.value, row.chatId.value, row.messageId.value,
      row.mediaAlbumId.GetOr(0), row.date.value, sensitive.value, row.size.value, row.downloadedSize.value,
      row.fileType, row.mimeType, row.fileName, row.thumbnail, row.caption, row.localPath,
      row.downloadStatus, row.transferStatus, row.startDate.GetOr(0), row.completionDate))
  }

  /** Refreshing the source fields and then restoring the old ones gives back the record. */
  lemma WithSourceFieldRoundTrip(rec: FileRecord, id: int, downloadedSize: int)
    ensures WithSourceField(WithSourceField(rec, id, downloadedSize), rec.id, rec.downloadedSize) == rec
  {
  }
}
