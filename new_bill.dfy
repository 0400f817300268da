/** The employee's new-bill container: file selection with extension
    validation and its error annotation, the upload to the store and its
    later resolution, and the submission of the bill record. */
module NewBillContainer {
  import opened BillModel
  import opened Strings
  import opened BillUtils

  /** The file name of a selected path: the piece after its last `\`. */
  function FileName(path: string): (r: string)
    ensures '\\' !in r
    ensures |r| <= |path| && path[|path| - |r|..] == r
    ensures |r| == |path| || path[|path| - |r| - 1] == '\\'
  {
    LastSegment(path, '\\')
  }

  /** The extension of a file name: the piece after its last `.`, which is
      the whole name when it has no `.`. */
  function Extension(name: string): (r: string)
    ensures '.' !in r
    ensures |r| <= |name| && name[|name| - |r|..] == r
    ensures |r| == |name| || name[|name| - |r| - 1] == '.'
    ensures '.' !in name ==> r == name
  {
    if '.' !in name then
      LastSegmentIs(name, '.', name);
      LastSegment(name, '.')
    else
      LastSegment(name, '.')
  }

  /** The extensions the form accepts, compared case-sensitively. */
  const EXTENSIONS: seq<string> := ["jpeg", "jpg", "png"]

  predicate IsAccepted(ext: string)
  {
    ext in EXTENSIONS
  }

  /** `name` carries the extension `ext`: it is `ext` itself or ends with
      `.` followed by `ext`. */
  predicate HasExtension(name: string, ext: string)
  {
    name == ext || (|ext| < |name| && name[|name| - |ext|..] == ext && name[|name| - |ext| - 1] == '.')
  }

  /** For a dot-free `ext`, HasExtension is exactly what Extension computes. */
  lemma HasExtensionIff(name: string, ext: string)
    requires '.' !in ext
    ensures HasExtension(name, ext) <==> Extension(name) == ext
  {
    if HasExtension(name, ext) && name != ext {
      ExtensionOfSuffix(name, ext);
    }
  }

  /** A file name is accepted iff it carries one of the accepted extensions. */
  lemma AcceptedNames(name: string)
    ensures IsAccepted(Extension(name)) <==> exists ext :: ext in EXTENSIONS && HasExtension(name, ext)
  {
    forall ext | ext in EXTENSIONS
      ensures HasExtension(name, ext) <==> Extension(name) == ext
    {
      assert '.' !in ext;
      HasExtensionIff(name, ext);
    }
  }

  /** A name ending in `.` + a dot-free `ext` has extension `ext`. */
  lemma ExtensionOfSuffix(name: string, ext: string)
    requires '.' !in ext
    requires |ext| < |name| && name[|name| - |ext|..] == ext && name[|name| - |ext| - 1] == '.'
    ensures Extension(name) == ext
  {
    LastSegmentIs(name, '.', ext);
  }

  /** Selecting a `.png` file from any directory gives its file name, which
      is accepted. */
  lemma PngAccepted(dir: string, base: string)
    requires '\\' !in base
    ensures FileName(dir + "\\" + (base + "." + "png")) == base + "." + "png"
    ensures IsAccepted(Extension(base + "." + "png"))
  {
    FileNameAfter(dir, base + "." + "png");
    ExtensionAfter(base, "png");
  }

  /** Selecting a `.pdf` file from any directory gives its file name, which
      is rejected. */
  lemma PdfRejected(dir: string, base: string)
    requires '\\' !in base
    ensures FileName(dir + "\\" + (base + "." + "pdf")) == base + "." + "pdf"
    ensures !IsAccepted(Extension(base + "." + "pdf"))
  {
    FileNameAfter(dir, base + "." + "pdf");
    ExtensionAfter(base, "pdf");
  }

  /** The comparison is case-sensitive: `photo.PNG`, and any other name
      ending in `.PNG`, is rejected. */
  lemma UpperCaseRejected(base: string)
    ensures !IsAccepted(Extension(base + "." + "PNG"))
  {
    ExtensionAfter(base, "PNG");
  }

  /** A file named only `jpeg`, `jpg` or `png`, without any dot, counts as
      having that extension and is accepted. */
  lemma BareExtensionAccepted(name: string)
    requires IsAccepted(name)
    ensures IsAccepted(Extension(name))
  {
    assert '.' !in name;
  }

  lemma FileNameAfter(dir: string, name: string)
    requires '\\' !in name
    ensures FileName(dir + "\\" + name) == name
  {
    SuffixAfter(dir, '\\', name);
    PathEndsWith(dir + "\\" + name, name);
  }

  lemma ExtensionAfter(base: string, ext: string)
    requires '.' !in ext
    ensures Extension(base + "." + ext) == ext
  {
    SuffixAfter(base, '.', ext);
    ExtensionOfSuffix(base + "." + ext, ext);
  }

  /** `prefix + [sep] + piece` ends with `piece` just after a separator. */
  lemma SuffixAfter(prefix: string, sep: char, piece: string)
    ensures var s := prefix + [sep] + piece;
      |piece| < |s| && s[|s| - |piece|..] == piece && s[|s| - |piece| - 1] == sep
  {
  }

  lemma PathEndsWith(path: string, name: string)
    requires '\\' !in name
    requires |name| < |path| && path[|path| - |name|..] == name && path[|path| - |name| - 1] == '\\'
    ensures FileName(path) == name
  {
    LastSegmentIs(path, '\\', name);
  }

  /** A `.errorMessage` node; `hidden` is whether its class also has `hidden`. */
  datatype ErrorNode = ErrorNode(hidden: bool)

  /** The error annotations after one selection. A rejected file appends a
      visible annotation only when no `.errorMessage` node exists; an
      accepted file hides the first existing node and removes nothing. */
  function Annotate(nodes: seq<ErrorNode>, accepted: bool): (r: seq<ErrorNode>)
    ensures |r| == if nodes == [] && !accepted then 1 else |nodes|
    ensures !accepted && nodes == [] ==> r == [ErrorNode(false)]
    ensures !accepted && nodes != [] ==> r == nodes
    ensures accepted && nodes != [] ==> r[0].hidden && r[1..] == nodes[1..]
  {
    if !accepted then
      if |nodes| == 0 then [ErrorNode(false)] else nodes
    else if |nodes| > 0 then
      nodes[0 := ErrorNode(true)]
    else nodes
  }

  /** The annotations after a series of selections, accepted or not. */
  function AnnotateAll(nodes: seq<ErrorNode>, verdicts: seq<bool>): seq<ErrorNode>
    decreases |verdicts|
  {
    if |verdicts| == 0 then nodes
    else AnnotateAll(Annotate(nodes, verdicts[0]), verdicts[1..])
  }

  /** However many files are selected, the form never holds more than one
      annotation. */
  lemma {:induction false} AtMostOneAnnotation(nodes: seq<ErrorNode>, verdicts: seq<bool>)
    requires |nodes| <= 1
    ensures |AnnotateAll(nodes, verdicts)| <= 1
    decreases |verdicts|
  {
    if |verdicts| > 0 {
      AtMostOneAnnotation(Annotate(nodes, verdicts[0]), verdicts[1..]);
    }
  }

  /** Once an accepted file has hidden the annotation, no later selection
      makes it visible again: a rejected file finds the hidden node, so it
      neither appends a new one nor un-hides it. */
  lemma {:induction false} HiddenAnnotationStaysHidden(verdicts: seq<bool>)
    ensures AnnotateAll([ErrorNode(true)], verdicts) == [ErrorNode(true)]
    decreases |verdicts|
  {
    if |verdicts| > 0 {
      assert Annotate([ErrorNode(true)], verdicts[0]) == [ErrorNode(true)];
      HiddenAnnotationStaysHidden(verdicts[1..]);
    }
  }

  /** The first rejected file of a form shows the annotation. */
  lemma FirstRejectionShows(verdicts: seq<bool>)
    requires forall i :: 0 <= i < |verdicts| ==> verdicts[i]
    ensures AnnotateAll([], verdicts + [false]) == [ErrorNode(false)]
    decreases |verdicts|
  {
    if |verdicts| > 0 {
      assert (verdicts + [false])[1..] == verdicts[1..] + [false];
      FirstRejectionShows(verdicts[1..]);
    }
  }

  /** `parseInt(...) || 20`: a NaN or zero percentage becomes 20. */
  function PctOrDefault(parsed: Option<int>): (r: int)
    ensures r != 0
    ensures parsed.Some? && parsed.value != 0 ==> r == parsed.value
    ensures parsed.None? || parsed.value == 0 ==> r == 20
  {
    match parsed
    case Some(v) => if v != 0 then v else 20
    case None => 20
  }

  /** The form's field values at submit time, as the browser reports them. */
  datatype Form = Form(
    expenseType: string,
    name: string,
    amount: string,
    date: string,
    vat: string,
    pct: string,
    commentary: string)

  /** The record handleSubmit builds: the session email, the form fields (the
      amount and percentage parsed by `parseInt`), the file fields captured
      by the upload, and status pending. It has no id and no admin comment. */
  function SubmittedBill(email: string, form: Form, parseInt: string -> Option<int>,
                         fileUrl: Option<string>, fileName: Option<string>): (r: Bill)
    ensures r.status == PENDING && r.id.None? && r.commentAdmin.None?
    ensures r.email == email && r.fileUrl == fileUrl && r.fileName == fileName
    ensures r.amount == parseInt(form.amount) && r.pct == PctOrDefault(parseInt(form.pct))
    ensures r.expenseType == form.expenseType && r.name == form.name && r.date == form.date
    ensures r.vat == form.vat && r.commentary == form.commentary
  {
    Bill(None, email, form.expenseType, form.name, parseInt(form.amount), form.date, form.vat,
         PctOrDefault(parseInt(form.pct)), form.commentary, fileUrl, fileName, PENDING, None)
  }

  /** Listed after any bills, a submitted bill is added to the dashboard's
      pending bucket and to no other, unless the browser hides the
      submitter's bills. */
  lemma SubmittedBillIsPending(email: string, form: Form, parseInt: string -> Option<int>,
                               fileUrl: Option<string>, fileName: Option<string>,
                               s: seq<Bill>, env: Env, k: int)
    requires 1 <= k <= 3
    ensures var b := SubmittedBill(email, form, parseInt, fileUrl, fileName);
      FilterBills(Some(s + [b]), GetStatus(k), env) ==
      FilterBills(Some(s), GetStatus(k), env) + (if k == 1 && Visible(b, env) then [b] else [])
  {
    FilterAppendOne(s, SubmittedBill(email, form, parseInt, fileUrl, fileName), GetStatus(k), env);
  }

  /** A file handle from the input's file list; its contents are not modelled. */
  type FileHandle = nat

  /** What the store's create resolves with. */
  datatype Created = Created(fileUrl: string, key: string)

  /** The container's observable effects, in order. */
  datatype Effect =
    | CreateRequested(file: FileHandle, email: string)
    | UpdateRequested(data: Bill, selector: Option<string>)
    | Navigated(route: Route)
    | ErrorLogged

  class NewBill {
    const store: bool
    var fileUrl: Option<string>
    var fileName: Option<string>
    var billId: Option<string>
    /** The file input's value; "" once cleared. */
    var inputValue: string
    /** The `.errorMessage` nodes of the form. */
    var errorNodes: seq<ErrorNode>
    /** The file names captured by the `.then` of each create request not
      yet settled, in the order they were issued. */
    var creates: seq<string>
    /** The number of update requests not yet settled. */
    var updates: nat
    ghost var log: seq<Effect>

    ghost predicate Valid()
      reads this
    {
      |errorNodes| <= 1
    }

    /** A new form: no upload captured, nothing pending, no annotation. */
    constructor (store: bool)
      ensures Valid()
      ensures this.store == store
      ensures fileUrl.None? && fileName.None? && billId.None?
      ensures inputValue == "" && errorNodes == [] && creates == [] && updates == 0 && log == []
    {
      this.store := store;
      fileUrl, fileName, billId := None, None, None;
      inputValue := "";
      errorNodes := [];
      creates := [];
      updates := 0;
      log := [];
    }

    /** handleChangeFile for a selection the browser reports as `path`:
      the input is cleared when the extension is rejected, the annotation is
      updated by Annotate, and a create request for the file and the
      session's email is issued whatever the extension. Without a store the
      handler throws at `this.store.bills()`, after the annotation update
      and before any request (`raised`). */
    method HandleChangeFile(path: string, file: FileHandle, email: string) returns (raised: bool)
      requires Valid()
      modifies this`inputValue, this`errorNodes, this`creates, this`log
      ensures Valid()
      ensures var accepted := IsAccepted(Extension(FileName(path)));
        inputValue == (if accepted then path else "") &&
        errorNodes == Annotate(old(errorNodes), accepted)
      ensures raised == !store
      ensures creates == old(creates) + (if store then [FileName(path)] else [])
      ensures log == old(log) + (if store then [CreateRequested(file, email)] else [])
      ensures fileUrl == old(fileUrl) && fileName == old(fileName) && billId == old(billId)
      ensures updates == old(updates)
    {
      var name := FileName(path);
      var accepted := IsAccepted(Extension(name));
      ShowVerdict(path, accepted);
      if store {
        log := log + [CreateRequested(file, email)];
        creates := creates + [name];
        raised := false;
      } else {
        raised := true;
      }
    }

    /** The view part of handleChangeFile once the extension is judged: the
      input keeps the selected path or is cleared, and the annotation is
      updated by Annotate. */
    method ShowVerdict(path: string, accepted: bool)
      requires Valid()
      modifies this`inputValue, this`errorNodes
      ensures Valid()
      ensures inputValue == (if accepted then path else "")
      ensures errorNodes == Annotate(old(errorNodes), accepted)
    {
      // The browser has stored the selection in the input before dispatching.
      inputValue := path;
      if !accepted {
        inputValue := "";
        if |errorNodes| == 0 {
          errorNodes := errorNodes + [ErrorNode(false)];
        }
      } else if |errorNodes| > 0 {
        errorNodes := errorNodes[0 := ErrorNode(true)];
      }
    }

    /** The settling of the `k`-th pending create request. On success the
      upload's key, URL and the file name captured at selection time become
      the form's; on failure those stay as they were and the error is
      logged. Requests may settle in any order; the last to succeed wins. */
    method CreateSettled(k: nat, outcome: Option<Created>)
      requires k < |creates|
      modifies this
      ensures creates == old(creates[..k] + creates[k + 1..])
      ensures outcome.Some? ==>
        billId == Some(outcome.value.key) && fileUrl == Some(outcome.value.fileUrl) &&
        fileName == Some(old(creates[k])) && log == old(log)
      ensures outcome.None? ==>
        billId == old(billId) && fileUrl == old(fileUrl) && fileName == old(fileName) &&
        log == old(log) + [ErrorLogged]
      ensures inputValue == old(inputValue) && errorNodes == old(errorNodes) && updates == old(updates)
    {
      var captured := creates[k];
      creates := creates[..k] + creates[k + 1..];
      match outcome
      case Some(result) =>
        billId := Some(result.key);
        fileUrl := Some(result.fileUrl);
        fileName := Some(captured);
      case None =>
        log := log + [ErrorLogged];
    }

    /** updateBill: with a store, an update of the record keyed by the
      upload's key (not by the record, which has no id); without one,
      nothing. */
    method UpdateBill(bill: Bill)
      modifies this`log, this`updates
      ensures log == old(log) + (if store then [UpdateRequested(bill, billId)] else [])
      ensures updates == old(updates) + (if store then 1 else 0)
    {
      if store {
        log := log + [UpdateRequested(bill, billId)];
        updates := updates + 1;
      }
    }

    /** handleSubmit: builds SubmittedBill from the form and the captured
      upload fields, requests its update, and asks for the bills page at
      once, without waiting for the update. */
    method HandleSubmit(form: Form, email: string, parseInt: string -> Option<int>)
      modifies this`log, this`updates
      ensures var bill := SubmittedBill(email, form, parseInt, fileUrl, fileName);
        log == old(log) + (if store then [UpdateRequested(bill, billId)] else []) + [Navigated(BillsRoute)]
      ensures updates == old(updates) + (if store then 1 else 0)
    {
      var bill := SubmittedBill(email, form, parseInt, fileUrl, fileName);
      UpdateBill(bill);
      log := log + [Navigated(BillsRoute)];
    }

    /** The settling of one pending update: success asks for the bills page
      a second time, failure is logged. */
    method UpdateSettled(ok: bool)
      requires updates > 0
      modifies this`log, this`updates
      ensures updates == old(updates) - 1
      ensures log == old(log) + [if ok then Navigated(BillsRoute) else ErrorLogged]
    {
      updates := updates - 1;
      log := log + [if ok then Navigated(BillsRoute) else ErrorLogged];
    }
  }

  /** A rejected file still travels with the bill: selecting a `.pdf` file
      on a new form clears the input and shows the annotation, yet its
      create request is issued and, once it succeeds, its name, URL and key
      become the form's, so the next submission (HandleSubmit) carries a
      file the form rejected. */
  method RejectedUploadScenario(dir: string, base: string, email: string, url: string, key: string)
    returns (inputValue: string, errorNodes: seq<ErrorNode>,
             fileUrl: Option<string>, fileName: Option<string>, billId: Option<string>)
    requires '\\' !in base
    ensures inputValue == "" && errorNodes == [ErrorNode(false)]
    ensures fileUrl == Some(url) && fileName == Some(base + "." + "pdf") && billId == Some(key)
    ensures !IsAccepted(Extension(fileName.value))
  {
    var page := new NewBill(true);
    var name := base + "." + "pdf";
    PdfRejected(dir, base);
    var raised := page.HandleChangeFile(dir + "\\" + name, 7, email);
    page.CreateSettled(0, Some(Created(url, key)));
    inputValue, errorNodes := page.inputValue, page.errorNodes;
    fileUrl, fileName, billId := page.fileUrl, page.fileName, page.billId;
  }
}
