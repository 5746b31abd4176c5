/** The replies screen of one question: choosing a PDF and cleaning its
    name, the submit guard of the reply composer, and where a PDF reply is
    sent when it is opened. Pickers, sharing and downloads are outside the
    model; their results come in as parameters. */
module QuestionResponses {
  import opened Wrappers
  import Text
  import Api
  import Questions

  /** The characters a PDF name may not keep: / \ ? % * : | " < > */
  predicate Forbidden(c: char) {
    c in {'/', '\\', '?', '%', '*', ':', '|', '"', '<', '>'}
  }

  /** Each forbidden character of a name becomes `_`. */
  function SanitizeName(name: string): (r: string)
    ensures |r| == |name|
    ensures forall k :: 0 <= k < |name| ==> r[k] == (if Forbidden(name[k]) then '_' else name[k])
  {
    if |name| == 0 then []
    else [if Forbidden(name[0]) then '_' else name[0]] + SanitizeName(name[1..])
  }

  /** A cleaned name holds no forbidden character, and cleaning it again
      changes nothing. */
  lemma SanitizeNameClean(name: string)
    ensures forall k :: 0 <= k < |SanitizeName(name)| ==> !Forbidden(SanitizeName(name)[k])
    ensures SanitizeName(SanitizeName(name)) == SanitizeName(name)
  {
  }

  /** A name with no forbidden character is kept as it is. */
  lemma SanitizeNameKeepsClean(name: string)
    requires forall k :: 0 <= k < |name| ==> !Forbidden(name[k])
    ensures SanitizeName(name) == name
  {
  }

  /** A picked document; either field may be missing. */
  datatype Doc = Doc(uri: Option<string>, name: Option<string>)

  /** How the document picker ended: cancelled, with an error, or with a
      result in the current shape (`assets` present) or the legacy shape
      (the document's fields on the result itself). */
  datatype PickerResult = Canceled | Threw | Picked(assets: Option<seq<Doc>>, legacy: Doc)

  /** The name a document without one gets. */
  const DefaultPdfName: string := "document.pdf"

  /** The document a picker result describes: the first asset when there is
      an asset list (none when it is empty), otherwise the legacy fields. */
  function PickedDoc(assets: Option<seq<Doc>>, legacy: Doc): Option<Doc> {
    match assets
    case None => Some(legacy)
    case Some(list) => if |list| > 0 then Some(list[0]) else None
  }

  /** `pickPdf`: the selected PDF after a pick. A cancelled pick, an error or
      a document without a uri leave the selection as it was; otherwise the
      document becomes the selection under its cleaned name. */
  function PickPdf(current: Option<Questions.PdfRef>, res: PickerResult): (r: Option<Questions.PdfRef>)
    ensures res.Canceled? || res.Threw? ==> r == current
    ensures (res.Picked? && (PickedDoc(res.assets, res.legacy).None? || !Api.Truthy(PickedDoc(res.assets, res.legacy).value.uri)))
              ==> r == current
    ensures res.Picked? && PickedDoc(res.assets, res.legacy).Some? && Api.Truthy(PickedDoc(res.assets, res.legacy).value.uri) ==>
              var doc := PickedDoc(res.assets, res.legacy).value;
              r == Some(Questions.PdfRef(SanitizeName(if Api.Truthy(doc.name) then doc.name.value else DefaultPdfName),
                                          doc.uri.value))
  {
    match res
    case Canceled => current
    case Threw => current
    case Picked(assets, legacy) =>
      match PickedDoc(assets, legacy)
      case None => current
      case Some(doc) =>
        if !Api.Truthy(doc.uri) then current
        else
          var name := if Api.Truthy(doc.name) then doc.name.value else DefaultPdfName;
          Some(Questions.PdfRef(SanitizeName(name), doc.uri.value))
  }

  /** A PDF reference fit to send: a non-empty uri and a clean, non-empty
      name. */
  predicate Usable(pdf: Questions.PdfRef) {
    pdf.uri != "" && pdf.name != "" && forall k :: 0 <= k < |pdf.name| ==> !Forbidden(pdf.name[k])
  }

  /** A selected PDF is always usable. */
  lemma PickPdfSelectsUsable(current: Option<Questions.PdfRef>, res: PickerResult)
    requires current.Some? ==> Usable(current.value)
    ensures PickPdf(current, res).Some? ==> Usable(PickPdf(current, res).value)
  {
    if res.Picked? && PickedDoc(res.assets, res.legacy).Some? {
      var doc := PickedDoc(res.assets, res.legacy).value;
      if Api.Truthy(doc.uri) {
        var name := if Api.Truthy(doc.name) then doc.name.value else DefaultPdfName;
        assert |name| > 0;
        SanitizeNameClean(name);
        assert Usable(Questions.PdfRef(SanitizeName(name), doc.uri.value));
      }
    }
  }

  /** The reply composer: the text field, the chosen image and PDF. */
  datatype Composer = Composer(text: string, imageUri: Option<string>, pdf: Option<Questions.PdfRef>)

  const EmptyComposer: Composer := Composer("", None, None)

  /** The composer offers nothing to send: only blanks, no image, no PDF. */
  predicate NothingToSend(c: Composer) {
    Text.Trim(c.text) == "" && !Api.Truthy(c.imageUri) && c.pdf.None?
  }

  /** What `submit` leaves: the questions, the composer, and whether the
      reply went out (otherwise an error is shown). */
  datatype Submitted = Submitted(questions: seq<Questions.QAItem>, composer: Composer, accepted: bool)

  /** `submit`: an empty composer is refused and nothing changes; otherwise
      the trimmed text goes out with the image and the PDF as a new,
      non-default reply of the question, and the composer is emptied. */
  function Submit(qs: seq<Questions.QAItem>, questionId: string, c: Composer, newId: string, now: string): (r: Submitted)
    ensures !r.accepted <==> (Text.AllSpace(c.text) && !Api.Truthy(c.imageUri) && c.pdf.None?)
    ensures !r.accepted ==> r.questions == qs && r.composer == c
    ensures r.accepted ==>
              r.composer == EmptyComposer
              && r.questions == Questions.AddReply(qs, questionId, Questions.ReplyDraft(Text.Trim(c.text), c.imageUri, c.pdf, false), newId, now)
  {
    Text.TrimEmptyIffAllSpace(c.text);
    if NothingToSend(c) then Submitted(qs, c, false)
    else
      var draft := Questions.ReplyDraft(Text.Trim(c.text), c.imageUri, c.pdf, false);
      Submitted(Questions.AddReply(qs, questionId, draft, newId, now), EmptyComposer, true)
  }

  /** A submitted reply is never blank: its text has content, or it carries
      an image or a PDF. */
  lemma SubmittedReplyHasContent(qs: seq<Questions.QAItem>, questionId: string, c: Composer, newId: string, now: string, i: nat)
    requires i < |qs| && qs[i].id == questionId
    requires !Text.AllSpace(c.text) || Api.Truthy(c.imageUri) || c.pdf.Some?
    ensures Submit(qs, questionId, c, newId, now).accepted
    ensures var reply := Submit(qs, questionId, c, newId, now).questions[i].replies[0];
            reply.id == newId && !reply.isDefault
            && (reply.text != "" || Api.Truthy(reply.imageUri) || reply.pdf.Some?)
  {
    Text.TrimEmptyIffAllSpace(c.text);
  }

  /** Where opening a PDF reply leads. */
  datatype PdfAction =
    | ShareLocal(uri: string)                  // a file already on the device
    | Download(source: string, dest: string)   // fetched into the documents folder first
    | Unsupported                              // an error is shown

  /** Each run of whitespace becomes one `_`. */
  function CollapseSpaces(s: string): (r: string)
    ensures |r| <= |s| && (|r| == 0 <==> |s| == 0)
    ensures Text.NoSpace(r)
    decreases |s|
  {
    if |s| == 0 then []
    else if Text.IsJsSpace(s[0]) then
      var rest := Text.TrimStart(s);
      "_" + CollapseSpaces(rest)
    else [s[0]] + CollapseSpaces(s[1..])
  }

  /** A name without whitespace is kept as it is; so collapsing twice is
      collapsing once. */
  lemma {:induction false} CollapseSpacesKeepsSpaceless(s: string)
    requires Text.NoSpace(s)
    ensures CollapseSpaces(s) == s
  {
    if |s| > 0 {
      assert forall k :: 0 <= k < |s[1..]| ==> !Text.IsJsSpace(s[1..][k]) by {
        forall k | 0 <= k < |s[1..]| ensures !Text.IsJsSpace(s[1..][k]) {
          assert s[1..][k] == s[k + 1];
        }
      }
      CollapseSpacesKeepsSpaceless(s[1..]);
    }
  }

  lemma CollapseSpacesIdempotent(s: string)
    ensures CollapseSpaces(CollapseSpaces(s)) == CollapseSpaces(s)
  {
    CollapseSpacesKeepsSpaceless(CollapseSpaces(s));
  }

  /** A leading run of non-space characters is copied as it is. */
  lemma {:induction false} CollapseSpacesPrefix(a: string, t: string)
    requires Text.NoSpace(a)
    ensures CollapseSpaces(a + t) == a + CollapseSpaces(t)
    decreases |a|
  {
    if |a| == 0 {
      assert a + t == t;
    } else {
      var tail := a[1..];
      assert Text.NoSpace(tail) by {
        forall k | 0 <= k < |tail| ensures !Text.IsJsSpace(tail[k]) {
          assert tail[k] == a[k + 1];
        }
      }
      CollapseSpacesPrefix(tail, t);
      CollapseSpacesCons(a[0], tail + t);
      assert a + t == [a[0]] + (tail + t);
      assert a + CollapseSpaces(t) == [a[0]] + (tail + CollapseSpaces(t));
    }
  }

  /** A non-space character is copied and the collapse goes on after it. */
  lemma CollapseSpacesCons(c: char, t: string)
    requires !Text.IsJsSpace(c)
    ensures CollapseSpaces([c] + t) == [c] + CollapseSpaces(t)
  {
    assert ([c] + t)[0] == c;
    assert ([c] + t)[1..] == t;
  }

  /** One step of the collapse: a word, then a whitespace run, then the rest
      of the name, become the word, one `_` and the collapsed rest. Applied
      run by run, every whitespace run of a name becomes exactly one `_`. */
  lemma {:induction false} CollapseSpacesStep(a: string, gap: string, b: string)
    requires Text.NoSpace(a)
    requires |gap| > 0 && Text.AllSpace(gap)
    requires |b| == 0 || !Text.IsJsSpace(b[0])
    ensures CollapseSpaces(a + gap + b) == a + "_" + CollapseSpaces(b)
  {
    assert a + gap + b == a + (gap + b);
    CollapseSpacesPrefix(a, gap + b);
    CollapseSpacesRun(gap, b);
    assert a + "_" + CollapseSpaces(b) == a + ("_" + CollapseSpaces(b));
  }

  /** A leading whitespace run becomes one `_`, and the collapse goes on
      after it. */
  lemma CollapseSpacesRun(gap: string, b: string)
    requires |gap| > 0 && Text.AllSpace(gap)
    requires |b| == 0 || !Text.IsJsSpace(b[0])
    ensures CollapseSpaces(gap + b) == "_" + CollapseSpaces(b)
  {
    TrimStartPastRun(gap, b);
    assert (gap + b)[0] == gap[0];
  }

  /** A whitespace run between two words becomes a single `_`. */
  lemma {:induction false} CollapseSpacesJoins(a: string, gap: string, b: string)
    requires Text.NoSpace(a)
    requires |gap| > 0 && Text.AllSpace(gap)
    requires Text.NoSpace(b)
    ensures CollapseSpaces(a + gap + b) == a + "_" + b
  {
    CollapseSpacesStep(a, gap, b);
    CollapseSpacesKeepsSpaceless(b);
  }

  /** Trimming a whitespace run off the front leaves what followed it. */
  lemma {:induction false} TrimStartPastRun(gap: string, b: string)
    requires Text.AllSpace(gap)
    requires |b| == 0 || !Text.IsJsSpace(b[0])
    ensures Text.TrimStart(gap + b) == b
  {
    if |gap| == 0 {
      assert gap + b == b;
    } else {
      assert (gap + b)[1..] == gap[1..] + b;
      assert Text.AllSpace(gap[1..]) by {
        forall k | 0 <= k < |gap[1..]| ensures Text.IsJsSpace(gap[1..][k]) {
          assert gap[1..][k] == gap[k + 1];
        }
      }
      TrimStartPastRun(gap[1..], b);
    }
  }

  /** The JavaScript text of a missing documents folder. */
  const NullText: string := "null"

  /** `downloadPdf`: local uris are shared, web uris are downloaded into the
      documents folder under the name with its whitespace runs collapsed, and
      any other uri is refused. A missing folder path is concatenated as the
      text "null", as JavaScript does. */
  function DownloadPdf(pdf: Questions.PdfRef, documentDirectory: Option<string>): (r: PdfAction)
    ensures r.ShareLocal? <==> Text.StartsWith(pdf.uri, "file://") || Text.StartsWith(pdf.uri, "content://")
    ensures r.ShareLocal? ==> r.uri == pdf.uri
    ensures r.Download? <==> !r.ShareLocal? && (Text.StartsWith(pdf.uri, "http://") || Text.StartsWith(pdf.uri, "https://"))
    ensures r.Download? ==> r.source == pdf.uri
    ensures r.Download? ==> r.dest == documentDirectory.GetOr(NullText) + CollapseSpaces(pdf.name)
  {
    if Text.StartsWith(pdf.uri, "file://") || Text.StartsWith(pdf.uri, "content://") then ShareLocal(pdf.uri)
    else if Text.StartsWith(pdf.uri, "http://") || Text.StartsWith(pdf.uri, "https://") then
      Download(pdf.uri, documentDirectory.GetOr(NullText) + CollapseSpaces(pdf.name))
    else Unsupported
  }

  /** The downloaded file's name, after the folder, holds no whitespace. */
  lemma DownloadNameHasNoSpace(pdf: Questions.PdfRef, dir: string)
    requires DownloadPdf(pdf, Some(dir)).Download?
    ensures var dest := DownloadPdf(pdf, Some(dir)).dest;
            Text.StartsWith(dest, dir) && forall k :: |dir| <= k < |dest| ==> !Text.IsJsSpace(dest[k])
  {
    var dest := DownloadPdf(pdf, Some(dir)).dest;
    var name := CollapseSpaces(pdf.name);
    assert dest == dir + name;
    assert forall k :: |dir| <= k < |dest| ==> dest[k] == name[k - |dir|];
  }
}
