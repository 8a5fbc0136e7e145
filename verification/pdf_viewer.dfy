/** The resume viewer (src/components/pdf-viewer-modal.tsx): page buttons
 *  clamped to the document, and the reset when the dialog opens or closes.
 *  The modal and the inline viewer share the paging rules. */
module PdfViewer {

  datatype Viewer = Viewer(numPages: int, page: int, loading: bool, error: string)

  const Initial: Viewer := Viewer(0, 1, true, "")

  function Min(a: int, b: int): int { if a < b then a else b }

  function Max(a: int, b: int): int { if a > b then a else b }

  /** `nextPage`: one page on, never past the last page. */
  function NextPage(v: Viewer): (r: Viewer)
    ensures r.page <= v.numPages && r.page <= v.page + 1
    ensures v.page < v.numPages ==> r.page == v.page + 1
    ensures r == v.(page := r.page)
  {
    v.(page := Min(v.page + 1, v.numPages))
  }

  /** `previousPage`: one page back, never before page 1. */
  function PreviousPage(v: Viewer): (r: Viewer)
    ensures r.page >= 1 && r.page >= v.page - 1
    ensures v.page > 1 ==> r.page == v.page - 1
    ensures r == v.(page := r.page)
  {
    v.(page := Max(v.page - 1, 1))
  }

  /** The buttons, shown only once the document has pages. */
  predicate PreviousDisabled(v: Viewer) { v.page <= 1 }

  predicate NextDisabled(v: Viewer) { v.page >= v.numPages }

  predicate InRange(v: Viewer) { 1 <= v.page <= v.numPages }

  /** Paging never leaves the document, and an enabled button always moves
   *  exactly one page, which the other button takes back. */
  lemma PagingStaysInRange(v: Viewer)
    requires InRange(v)
    ensures InRange(NextPage(v)) && InRange(PreviousPage(v))
    ensures !NextDisabled(v) ==> PreviousPage(NextPage(v)) == v
    ensures !PreviousDisabled(v) ==> NextPage(PreviousPage(v)) == v
  {
  }

  /** `onDocumentLoadSuccess`: the spinner and any error go, the page count
   *  is the document's, and the page is not touched, so a page in range for
   *  the new count stays in range, and page 1 of a non-empty document shows
   *  Previous disabled and Next enabled exactly when there is a second page. */
  function LoadSuccess(v: Viewer, numPages: int): (r: Viewer)
    ensures !r.loading && r.error == "" && r.numPages == numPages
    ensures r.page == v.page
    ensures 1 <= v.page <= numPages ==> InRange(r)
    ensures v.page == 1 && numPages >= 1 ==> PreviousDisabled(r) && (NextDisabled(r) <==> numPages == 1)
  {
    v.(numPages := numPages, loading := false, error := "")
  }

  /** `onDocumentLoadError`: the spinner goes and the message is kept for
   *  display; the page and the page count stay, so the buttons page exactly
   *  as they did before the failure. */
  function LoadError(v: Viewer, message: string): (r: Viewer)
    ensures !r.loading && r.error == message
    ensures r.page == v.page && r.numPages == v.numPages
    ensures InRange(r) <==> InRange(v)
    ensures NextPage(r).page == NextPage(v).page && PreviousPage(r).page == PreviousPage(v).page
  {
    v.(loading := false, error := message)
  }

  /** `handleOpenChange`: back to page 1, loading, no error; closing also
   *  tells the parent (the second component). */
  function OpenChange(v: Viewer, open: bool): (r: (Viewer, bool))
    ensures r.0.loading && r.0.error == "" && r.0.numPages == v.numPages
    ensures r.0.page == 1 && PreviousDisabled(r.0)
    ensures v.numPages >= 1 ==> InRange(r.0)
    ensures r.1 <==> !open
  {
    (v.(page := 1, loading := true, error := ""), !open)
  }

  /** Opening a document of at least one page puts the viewer in range. */
  lemma OpenThenLoadInRange(v: Viewer, numPages: int)
    requires numPages >= 1
    ensures InRange(LoadSuccess(OpenChange(v, true).0, numPages))
  {
  }
}
