/**
 * The per-message work of `process_files`: inside one `try`, take the
 * object key from the message, download the document, flatten it into the
 * CSV file, upload that file and remove both local files; if anything in the
 * `try` raises, make the message visible again (timeout 0), otherwise delete
 * it.
 *
 * Every call into the queue, the object store, the JSON parser or the file
 * system is reduced to its outcome, which the message carries: the model
 * states what the service does with each combination of outcomes.
 * Local files are a map from path to content; uploaded objects and the
 * delete / change-visibility calls are logs.
 */
module Service {
  import opened Wrappers
  import opened JsonValue
  import opened Flatten
  import opened Entries
  import opened Naming

  /**
   * A local file: a downloaded document (`None` when it is not valid JSON), a
   * written table, or a table file whose writing stopped part way.
   */
  datatype LocalFile = Document(parsed: Option<Json>) | Table(rows: seq<FlatRecord>) | Truncated

  /**
   * The outcome of `tabular.to_csv(outPath)`. Either failure raises IOError,
   * which `flatten_file` catches: opening the path fails and leaves whatever
   * was there, or writing fails after the path was opened and truncated.
   */
  datatype CsvWrite = Written | OpenFailed | WriteFailed

  /** The outcome of `s3.download_file`. */
  datatype Download = DownloadFailed | Downloaded(content: Option<Json>)

  /** An object put in the output bucket: its key and the local file it was read from. */
  datatype Upload = Upload(key: string, content: LocalFile)

  /** The call made on the queue message at the end of its processing. */
  datatype Action = Delete(id: nat) | ChangeVisibility(id: nat, timeout: int)

  /** One queue message together with the outcome of every I/O step done for it. */
  datatype Message = Message(
    id: nat,
    objectKey: Option<string>,   // decoded key of the uploaded object; None when reading it raised
    download: Download,
    csvWrite: CsvWrite,
    uploadAccepted: bool,        // the store accepted the upload of an existing local file
    documentRemovable: bool,     // `os.remove` of the existing document succeeds
    csvRemovable: bool)          // `os.remove` of the existing CSV file succeeds

  /** The visibility timeout a failed message is reset to. */
  const RetryVisibility: int := 0

  type Files = map<string, LocalFile>

  // ---------------------------------------------------------------------------
  // The steps, as functions of the state before them.

  /** `flatten_file(file, outFileName)`: whether it returned, and the local files after it. */
  function FlattenFileStep(files: Files, file: string, outFileName: string, csvWrite: CsvWrite): (bool, Files) {
    if file !in files || !files[file].Document? || files[file].parsed.None? then (false, files)
    else match EntriesOf(files[file].parsed.value)
      case Err(_) => (false, files)
      case Ok(es) =>
        var rows := seq(|es|, i requires 0 <= i < |es| => Flat(es[i]));
        var path := CsvPath(outFileName);
        (true, match csvWrite
               case Written => files[path := Table(rows)]
               case OpenFailed => files
               case WriteFailed => files[path := Truncated])
  }

  /** `upload_file(file, outFileName)`: the local CSV file, if there is one, goes to the store. */
  function UploadStep(files: Files, uploads: seq<Upload>, outFileName: string, accepted: bool): (bool, seq<Upload>) {
    var path := CsvPath(outFileName);
    if path in files && accepted then (true, uploads + [Upload(UploadKey(outFileName), files[path])])
    else (false, uploads)
  }

  /** `cleanup_file(file, outFileName)`: remove the document, then the CSV file. */
  function CleanupStep(files: Files, file: string, outFileName: string, documentOk: bool, csvOk: bool): (bool, Files) {
    if file !in files || !documentOk then (false, files)
    else
      var files' := files - {file};
      var path := CsvPath(outFileName);
      if path !in files' || !csvOk then (false, files') else (true, files' - {path})
  }

  /** The `try` block: whether it completed, and the local files and uploads after it. */
  datatype Attempt = Attempt(completed: bool, files: Files, uploads: seq<Upload>)

  function TryBlock(files: Files, uploads: seq<Upload>, m: Message): Attempt {
    if m.objectKey.None? || m.download.DownloadFailed? then Attempt(false, files, uploads)
    else
      var file := m.objectKey.value;
      var files1 := files[file := Document(m.download.content)];
      var outFileName := OutputName(file);
      var (flattened, files2) := FlattenFileStep(files1, file, outFileName, m.csvWrite);
      if !flattened then Attempt(false, files2, uploads)
      else
        var (uploaded, uploads3) := UploadStep(files2, uploads, outFileName, m.uploadAccepted);
        if !uploaded then Attempt(false, files2, uploads3)
        else
          var (cleaned, files4) := CleanupStep(files2, file, outFileName, m.documentRemovable, m.csvRemovable);
          Attempt(cleaned, files4, uploads3)
  }

  /** What the service keeps between messages. */
  datatype ServiceState = ServiceState(files: Files, uploads: seq<Upload>, actions: seq<Action>)

  /** The action that ends a message's processing. */
  function Verdict(m: Message, completed: bool): Action {
    if completed then Delete(m.id) else ChangeVisibility(m.id, RetryVisibility)
  }

  /** One pass of the loop body of `process_files`. */
  function Step(s: ServiceState, m: Message): ServiceState {
    var a := TryBlock(s.files, s.uploads, m);
    ServiceState(a.files, a.uploads, s.actions + [Verdict(m, a.completed)])
  }

  /** The whole loop over one batch of messages. */
  function Run(s: ServiceState, batch: seq<Message>): ServiceState
    decreases |batch|
  {
    if batch == [] then s else Step(Run(s, batch[..|batch| - 1]), batch[|batch| - 1])
  }

  // ---------------------------------------------------------------------------
  // What one message does.

  /** The entries of a document, flattened: the rows of its CSV file. */
  ghost predicate RowsOf(rows: seq<FlatRecord>, es: seq<Json>) {
    |rows| == |es| && forall i :: 0 <= i < |rows| ==> rows[i] == Flat(es[i])
  }

  /**
   * The `try` block completes exactly when the key is read, the download
   * succeeds, the document is JSON with iterable entries, a CSV file is there
   * to upload (opened now, or left by an earlier run when opening failed),
   * the upload is accepted and both removals succeed.
   */
  lemma CompletesIff(files: Files, uploads: seq<Upload>, m: Message)
    ensures TryBlock(files, uploads, m).completed <==>
              (m.objectKey.Some? && m.download.Downloaded? && m.download.content.Some? &&
               EntriesOf(m.download.content.value).Ok? &&
               (m.csvWrite != OpenFailed || CsvPath(OutputName(m.objectKey.value)) in files) &&
               m.uploadAccepted && m.documentRemovable && m.csvRemovable)
  {
    if m.objectKey.Some? {
      CsvPathIsNotDocument(m.objectKey.value);
    }
  }

  /**
   * On success the document and the CSV file are both removed and no other
   * local file changes, and exactly one object is uploaded: the CSV file,
   * under the output prefix.
   */
  lemma CompletedCleansUp(files: Files, uploads: seq<Upload>, m: Message)
    requires TryBlock(files, uploads, m).completed
    ensures var file := m.objectKey.value;
            var out := OutputName(file);
            var a := TryBlock(files, uploads, m);
            a.files == files - {file, CsvPath(out)} &&
            |a.uploads| == |uploads| + 1 && a.uploads[..|uploads|] == uploads &&
            a.uploads[|uploads|].key == UploadKey(out)
  {
    var file := m.objectKey.value;
    CsvPathIsNotDocument(file);
  }

  /**
   * A freshly written CSV file holds one row per entry, each the entry
   * flattened, and that is what is uploaded, whether or not the removals
   * that follow succeed.
   */
  lemma UploadedRows(files: Files, uploads: seq<Upload>, m: Message)
    requires m.objectKey.Some? && m.download.Downloaded?
    requires m.download.content.Some? && EntriesOf(m.download.content.value).Ok?
    requires m.csvWrite == Written && m.uploadAccepted
    ensures var a := TryBlock(files, uploads, m);
            |a.uploads| == |uploads| + 1 &&
            a.uploads[|uploads|].key == UploadKey(OutputName(m.objectKey.value)) &&
            a.uploads[|uploads|].content.Table? &&
            RowsOf(a.uploads[|uploads|].content.rows, EntriesOf(m.download.content.value).value)
  {
    CsvPathIsNotDocument(m.objectKey.value);
  }

  /**
   * When opening the CSV file fails, the failure goes unnoticed: a CSV file
   * left at the same path by an earlier message is uploaded in its place,
   * and the message is still deleted if the rest succeeds.
   */
  lemma UnwrittenCsvUploadsStaleFile(files: Files, uploads: seq<Upload>, m: Message)
    requires m.objectKey.Some? && m.download.Downloaded?
    requires m.download.content.Some? && EntriesOf(m.download.content.value).Ok?
    requires m.csvWrite == OpenFailed && m.uploadAccepted
    requires CsvPath(OutputName(m.objectKey.value)) in files
    ensures var out := OutputName(m.objectKey.value);
            var a := TryBlock(files, uploads, m);
            |a.uploads| == |uploads| + 1 &&
            a.uploads[|uploads|] == Upload(UploadKey(out), files[CsvPath(out)]) &&
            (m.documentRemovable && m.csvRemovable ==> a.completed)
  {
    CsvPathIsNotDocument(m.objectKey.value);
  }

  /**
   * When writing the CSV file fails part way, the failure goes unnoticed as
   * well: the truncated file is uploaded, and the message is still deleted if
   * both removals succeed.
   */
  lemma TruncatedCsvUploaded(files: Files, uploads: seq<Upload>, m: Message)
    requires m.objectKey.Some? && m.download.Downloaded?
    requires m.download.content.Some? && EntriesOf(m.download.content.value).Ok?
    requires m.csvWrite == WriteFailed && m.uploadAccepted
    ensures var out := OutputName(m.objectKey.value);
            var a := TryBlock(files, uploads, m);
            |a.uploads| == |uploads| + 1 &&
            a.uploads[|uploads|] == Upload(UploadKey(out), Truncated) &&
            (m.documentRemovable && m.csvRemovable <==> a.completed)
  {
    CsvPathIsNotDocument(m.objectKey.value);
  }

  /**
   * On failure no local file that existed before is removed, except the
   * document itself when only the CSV removal failed; then the CSV file stays.
   * At most one object was uploaded.
   */
  lemma FailureKeepsFiles(files: Files, uploads: seq<Upload>, m: Message)
    requires !TryBlock(files, uploads, m).completed
    ensures var a := TryBlock(files, uploads, m);
            (forall p :: p in files && (m.objectKey.None? || p != m.objectKey.value) ==> p in a.files) &&
            (m.objectKey.Some? && m.download.Downloaded? && m.objectKey.value !in a.files ==>
               CsvPath(OutputName(m.objectKey.value)) in a.files) &&
            (a.uploads == uploads || (|a.uploads| == |uploads| + 1 && a.uploads[..|uploads|] == uploads))
  {
    if m.objectKey.Some? {
      CsvPathIsNotDocument(m.objectKey.value);
    }
  }

  /**
   * A document that is not JSON, or has no iterable "entry", is kept as
   * downloaded, nothing is written and nothing is uploaded.
   */
  lemma UnreadableDocumentKept(files: Files, uploads: seq<Upload>, m: Message)
    requires m.objectKey.Some? && m.download.Downloaded?
    requires m.download.content.None? || EntriesOf(m.download.content.value).Err?
    ensures var a := TryBlock(files, uploads, m);
            !a.completed && a.uploads == uploads &&
            a.files == files[m.objectKey.value := Document(m.download.content)]
  {
  }

  // ---------------------------------------------------------------------------
  // What a batch does.

  /**
   * Every message of the batch gets exactly one action, in the order of the
   * batch, with its own id: a delete when its `try` block completed and a
   * change of visibility to 0 otherwise. Earlier actions are kept.
   */
  lemma {:induction false} OneActionPerMessage(s: ServiceState, batch: seq<Message>)
    ensures var r := Run(s, batch);
            |r.actions| == |s.actions| + |batch| && r.actions[..|s.actions|] == s.actions &&
            forall i :: 0 <= i < |batch| ==>
              var before := Run(s, batch[..i]);
              r.actions[|s.actions| + i] ==
                (if TryBlock(before.files, before.uploads, batch[i]).completed
                 then Delete(batch[i].id) else ChangeVisibility(batch[i].id, RetryVisibility))
    decreases |batch|
  {
    if batch != [] {
      var n := |batch| - 1;
      var init := batch[..n];
      OneActionPerMessage(s, init);
      var r := Run(s, batch);
      forall i | 0 <= i < |batch|
        ensures var before := Run(s, batch[..i]);
                r.actions[|s.actions| + i] ==
                  (if TryBlock(before.files, before.uploads, batch[i]).completed
                   then Delete(batch[i].id) else ChangeVisibility(batch[i].id, RetryVisibility))
      {
        if i < n {
          assert init[..i] == batch[..i];
        } else {
          assert batch[..i] == init;
        }
      }
    }
  }

  /** A message is deleted only after its CSV file was uploaded, under the name derived from its key. */
  lemma DeletedOnlyIfUploaded(s: ServiceState, m: Message)
    requires Step(s, m).actions[|s.actions|] == Delete(m.id)
    ensures m.objectKey.Some? &&
            |Step(s, m).uploads| == |s.uploads| + 1 &&
            Step(s, m).uploads[|s.uploads|].key == UploadKey(OutputName(m.objectKey.value))
  {
    CompletedCleansUp(s.files, s.uploads, m);
  }

  // ---------------------------------------------------------------------------
  // The service as the source runs it.

  class Worker {
    var files: Files
    var uploads: seq<Upload>
    var actions: seq<Action>

    function Current(): ServiceState
      reads this
    {
      ServiceState(files, uploads, actions)
    }

    constructor ()
      ensures files == map[] && uploads == [] && actions == []
    {
      files, uploads, actions := map[], [], [];
    }

    /** `process_files()` over the messages one poll returned. */
    method ProcessFiles(batch: seq<Message>)
      modifies this
      ensures Current() == Run(old(Current()), batch)
    {
      var i := 0;
      while i < |batch|
        invariant i <= |batch|
        invariant Current() == Run(old(Current()), batch[..i])
      {
        assert batch[..i + 1][..i] == batch[..i];
        ProcessMessage(batch[i]);
        i := i + 1;
      }
      assert batch[..|batch|] == batch;
    }

    method ProcessMessage(m: Message)
      modifies this
      ensures Current() == Step(old(Current()), m)
    {
      var completed := TryProcessing(m);
      if completed {
        actions := actions + [Delete(m.id)];
      } else {
        actions := actions + [ChangeVisibility(m.id, RetryVisibility)];
      }
    }

    /** The `try` block; returning false stands for an exception. */
    method TryProcessing(m: Message) returns (completed: bool)
      modifies this`files, this`uploads
      ensures var a := TryBlock(old(files), old(uploads), m);
              completed == a.completed && files == a.files && uploads == a.uploads
    {
      if m.objectKey.None? {
        return false;
      }
      var file := m.objectKey.value;
      if m.download.DownloadFailed? {
        return false;
      }
      files := files[file := Document(m.download.content)];
      var outFileName := OutputName(file);
      completed := FlattenFile(file, outFileName, m.csvWrite);
      if !completed {
        return;
      }
      completed := UploadFile(outFileName, m.uploadAccepted);
      if !completed {
        return;
      }
      completed := CleanupFile(file, outFileName, m.documentRemovable, m.csvRemovable);
    }

    method FlattenFile(file: string, outFileName: string, csvWrite: CsvWrite) returns (completed: bool)
      modifies this`files
      ensures (completed, files) == FlattenFileStep(old(files), file, outFileName, csvWrite)
    {
      if file !in files || !files[file].Document? || files[file].parsed.None? {
        return false;
      }
      var entries := FlattenEntries(files[file].parsed.value);
      if entries.Err? {
        return false;
      }
      ghost var es := EntriesOf(old(files)[file].parsed.value).value;
      assert entries.value == seq(|es|, i requires 0 <= i < |es| => Flat(es[i]));
      var outPath := CsvPath(outFileName);
      match csvWrite {
        case Written => files := files[outPath := Table(entries.value)];
        case OpenFailed =>
        case WriteFailed => files := files[outPath := Truncated];
      }
      completed := true;
    }

    method UploadFile(outFileName: string, accepted: bool) returns (completed: bool)
      modifies this`uploads
      ensures (completed, uploads) == UploadStep(files, old(uploads), outFileName, accepted)
    {
      var path := CsvPath(outFileName);
      if path in files && accepted {
        uploads := uploads + [Upload(UploadKey(outFileName), files[path])];
        completed := true;
      } else {
        completed := false;
      }
    }

    method CleanupFile(file: string, outFileName: string, documentOk: bool, csvOk: bool) returns (completed: bool)
      modifies this`files
      ensures (completed, files) == CleanupStep(old(files), file, outFileName, documentOk, csvOk)
    {
      if file !in files || !documentOk {
        return false;
      }
      files := files - {file};
      var path := CsvPath(outFileName);
      if path !in files || !csvOk {
        return false;
      }
      files := files - {path};
      completed := true;
    }
  }
}
