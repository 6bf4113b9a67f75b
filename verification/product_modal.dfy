/** The product creation modal: the accept decision for a picked image, the
    image list's remove handler and five-image cap, the category created
    from inside the modal, and the field rules for name, SKU and price. */
module ProductModal {
  import opened Text
  import opened Wrappers
  import Upload
  import Keyed

  /** A picked file as `beforeUpload` sees it. */
  datatype Picked = Picked(name: string, mime: string, size: nat)

  /** An entry of the modal's image list. */
  datatype UploadFile = UploadFile(uid: string, name: string, status: string, url: string)

  /** What happens to a picked file: refused for its type, refused for its
      size, or read for a preview that the reader then appends to the list. */
  datatype Decision = RejectType | RejectSize | Preview

  /** The verdict of `beforeUpload`: the decision and the value returned to
      the upload component, where `true` would start an upload. */
  datatype BeforeUploadResult = BeforeUploadResult(decision: Decision, startUpload: bool)

  const TwoMiB: nat := 2 * 1024 * 1024
  const MaxImages: nat := 5

  /** `beforeUpload`: the MIME type must start with "image/", then the size
      in MiB, `size / 1024 / 1024`, must be below 2. The function returns
      false in every case. */
  function BeforeUpload(f: Picked): (r: BeforeUploadResult)
    ensures !r.startUpload
    ensures r.decision == RejectType <==> !StartsWith(f.mime, "image/")
    ensures r.decision == Preview <==> StartsWith(f.mime, "image/") && f.size < TwoMiB
  {
    var isImage := StartsWith(f.mime, "image/");
    if !isImage then BeforeUploadResult(RejectType, false)
    else
      var isLt2M := f.size as real / 1024.0 / 1024.0 < 2.0;
      if !isLt2M then BeforeUploadResult(RejectSize, false)
      else BeforeUploadResult(Preview, false)
  }

  /** The size bound at its edge: one byte under 2 MiB passes, 2 MiB does
      not, and a file of any size is refused when its type is not an image. */
  lemma BeforeUploadBoundaries()
    ensures BeforeUpload(Picked("a.png", "image/png", 2097151)).decision == Preview
    ensures BeforeUpload(Picked("a.png", "image/png", 2097152)).decision == RejectSize
    ensures BeforeUpload(Picked("a.pdf", "application/pdf", 1)).decision == RejectType
  {
    assert "application/pdf"[..6][0] == 'a';
  }

  /** A smaller file of the same type is accepted whenever a larger one is. */
  lemma PreviewSmallerFile(f: Picked, size: nat)
    requires BeforeUpload(f).decision == Preview && size <= f.size
    ensures BeforeUpload(f.(size := size)).decision == Preview
  {
  }

  /** The modal is stricter on size than the upload service: a non-empty
      file it previews with one of the service's types passes the service's
      own check, while a 3 MiB PNG that the service would take is refused. */
  lemma ModalStricterThanService(f: Picked)
    requires BeforeUpload(f).decision == Preview && f.mime in Upload.AllowedTypes && f.size > 0
    ensures Upload.ValidateFile(Upload.FileInfo(f.name, f.mime, f.size)).Pass?
    ensures BeforeUpload(Picked("a.png", "image/png", 3 * 1024 * 1024)).decision == RejectSize
    ensures Upload.ValidateFile(Upload.FileInfo("a.png", "image/png", 3 * 1024 * 1024)).Pass?
  {
  }

  /** The reader's `onload` for an accepted file: a finished entry is
      appended after the existing ones. */
  function AddPreview(list: seq<UploadFile>, uid: string, f: Picked, dataUrl: string): (r: seq<UploadFile>)
    ensures |r| == |list| + 1 && r[..|list|] == list
    ensures r[|list|].name == f.name && r[|list|].status == "done" && r[|list|].url == dataUrl
  {
    list + [UploadFile(uid, f.name, "done", dataUrl)]
  }

  function UidOf(f: UploadFile): string { f.uid }

  /** `handleRemove`: drop every entry with the removed file's uid. */
  function HandleRemove(list: seq<UploadFile>, uid: string): (r: seq<UploadFile>)
    ensures |r| <= |list|
    ensures forall x :: x in r <==> x in list && x.uid != uid
  {
    Keyed.Without(list, UidOf, uid)
  }

  /** Removal keeps the order of the rest: it acts on a concatenation piece
      by piece. */
  lemma HandleRemoveDistributes(a: seq<UploadFile>, b: seq<UploadFile>, uid: string)
    ensures HandleRemove(a + b, uid) == HandleRemove(a, uid) + HandleRemove(b, uid)
  {
    Keyed.WithoutDistributes(a, b, UidOf, uid);
  }

  /** Removing a uid that is not in the list changes nothing. */
  lemma HandleRemoveAbsent(list: seq<UploadFile>, uid: string)
    requires forall i :: 0 <= i < |list| ==> list[i].uid != uid
    ensures HandleRemove(list, uid) == list
  {
    Keyed.WithoutAbsent(list, UidOf, uid);
  }

  /** Removing twice is removing once. */
  lemma HandleRemoveIdempotent(list: seq<UploadFile>, uid: string)
    ensures HandleRemove(HandleRemove(list, uid), uid) == HandleRemove(list, uid)
  {
    Keyed.WithoutIdempotent(list, UidOf, uid);
  }

  /** A preview added and then removed by its fresh uid leaves the list as
      it was. */
  lemma RemoveUndoesPreview(list: seq<UploadFile>, uid: string, f: Picked, dataUrl: string)
    requires forall i :: 0 <= i < |list| ==> list[i].uid != uid
    ensures HandleRemove(AddPreview(list, uid, f, dataUrl), uid) == list
  {
    HandleRemoveDistributes(list, [UploadFile(uid, f.name, "done", dataUrl)], uid);
    HandleRemoveAbsent(list, uid);
  }

  /** The upload button shows only while fewer than five images are listed. */
  predicate ShowUploadButton(list: seq<UploadFile>) {
    !(|list| >= MaxImages)
  }

  /** Adding a preview hides the button exactly when it fills the fifth slot. */
  lemma PreviewFillsUpload(list: seq<UploadFile>, uid: string, f: Picked, dataUrl: string)
    requires ShowUploadButton(list)
    ensures ShowUploadButton(AddPreview(list, uid, f, dataUrl)) <==> |list| + 1 < MaxImages
  {
  }

  /** Removing an entry from a full list brings the button back. */
  lemma RemoveReopensUpload(list: seq<UploadFile>, uid: string)
    requires |list| == MaxImages && exists i :: 0 <= i < |list| && list[i].uid == uid
    ensures ShowUploadButton(HandleRemove(list, uid))
    ensures !ShowUploadButton(list)
  {
    var i :| 0 <= i < |list| && list[i].uid == uid;
    assert list == list[..i] + [list[i]] + list[i + 1..];
    HandleRemoveDistributes(list[..i] + [list[i]], list[i + 1..], uid);
    HandleRemoveDistributes(list[..i], [list[i]], uid);
  }

  // ------------------------------------------------------------- categories

  datatype Category = Category(id: string, name: string)

  /** The parts of the modal's state `handleCategorySuccess` touches. */
  datatype CategoryState = CategoryState(categories: seq<Category>, selected: Option<string>, categoryModalOpen: bool)

  /** `handleCategorySuccess`: the new category goes first in the list, is
      selected, and the category modal closes. */
  function HandleCategorySuccess(s: CategoryState, c: Category): (r: CategoryState)
    ensures |r.categories| == |s.categories| + 1 && r.categories[1..] == s.categories
    ensures r.selected.Some? && exists i :: 0 <= i < |r.categories| && r.categories[i].id == r.selected.value
    ensures r.selected == Some(c.id) && r.categories[0] == c
    ensures !r.categoryModalOpen
  {
    var r := CategoryState([c] + s.categories, Some(c.id), false);
    assert r.categories[0].id == c.id;
    r
  }

  // ------------------------------------------------------------ field rules

  /** The name rule: required and at least three characters; the length
      bound alone already refuses an empty name. */
  predicate NameRule(name: string): (b: bool)
    ensures b ==> name != ""
  {
    |name| >= 3
  }

  /** A character of the SKU pattern `[A-Za-z0-9-_]`. */
  predicate SkuChar(c: char) { IsAsciiLetter(c) || IsDigit(c) || c == '-' || c == '_' }

  /** The SKU rule: required, and `^[A-Za-z0-9-_]+$`. A valid SKU is plain
      ASCII without whitespace. */
  predicate SkuRule(sku: string): (b: bool)
    ensures b ==> |sku| > 0 && IsAscii(sku) && forall i :: 0 <= i < |sku| ==> !IsSpace(sku[i])
  {
    |sku| > 0 && forall i :: 0 <= i < |sku| ==> SkuChar(sku[i])
  }

  /** The price rule: required, a number, and at least 0.01; a valid price
      is positive. */
  predicate PriceRule(price: Option<real>): (b: bool)
    ensures b ==> price.Some? && price.value > 0.0
  {
    price.Some? && price.value >= 0.01
  }

  /** The bounds of the name and price rules: three characters, one cent;
      an empty price field fails. */
  lemma FieldRuleBoundaries()
    ensures !NameRule("") && !NameRule("ab") && NameRule("abc")
    ensures PriceRule(Some(0.01)) && PriceRule(Some(1500.0))
    ensures !PriceRule(Some(0.0)) && !PriceRule(Some(0.009)) && !PriceRule(None)
  {
  }

  /** A valid name stays valid when more is typed after it. */
  lemma NameRuleExtends(name: string, more: string)
    requires NameRule(name)
    ensures NameRule(name + more)
  {
  }

  /** Valid SKUs are closed under joining, and every non-empty slice of a
      valid SKU is one. */
  lemma SkuRuleClosed(a: string, b: string, i: nat, j: nat)
    requires SkuRule(a) && SkuRule(b)
    ensures SkuRule(a + b)
    ensures i < j <= |a| ==> SkuRule(a[i..j])
  {
    assert forall k :: 0 <= k < |a + b| ==> SkuChar((a + b)[k]) by {
      forall k | 0 <= k < |a + b| ensures SkuChar((a + b)[k]) {
        if k < |a| { assert (a + b)[k] == a[k]; } else { assert (a + b)[k] == b[k - |a|]; }
      }
    }
    if i < j <= |a| {
      assert forall k :: 0 <= k < j - i ==> a[i..j][k] == a[i + k];
    }
  }

  /** A price that passes keeps passing when raised. */
  lemma PriceRuleMonotone(p: real, q: real)
    requires PriceRule(Some(p)) && p <= q
    ensures PriceRule(Some(q))
  {
  }

  /** A SKU joined from valid SKUs with '-' or '_' is valid; one with a
      space, a dot or an accented letter is not. */
  lemma SkuExamples(a: string, b: string)
    requires SkuRule(a) && SkuRule(b)
    ensures SkuRule(a + "-" + b) && SkuRule(a + "_" + b)
    ensures !SkuRule(a + " " + b) && !SkuRule(a + "." + b)
    ensures !SkuRule("ANEL" + "É")
  {
    var s := a + " " + b;
    assert s[|a|] == ' ';
    var t := a + "." + b;
    assert t[|a|] == '.';
    var u := "ANEL" + "É";
    assert u[4] == 'É';
  }
}
