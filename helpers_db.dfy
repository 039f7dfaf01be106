/**
 * The pure rules of `DbHelper` in Helpers/DbHelper.cs: the field merge
 * `UpdateProducts` applies to an existing product row (the same merge is
 * repeated in Utilities/DbHelper.cs), and the normalised comparison of
 * `VerifySecurityAnswer`.
 */
module HelpersDb {
  import opened Wrappers
  import opened Text
  import opened ProductView
  import opened Tables

  // ----- UpdateProducts: the field merge -----

  /** A text field the form left blank: null, empty or white space only. */
  predicate Blank(s: Option<string>) {
    IsNullOrWhiteSpace(s)
  }

  /**
   * The row `UpdateProducts` writes over `existing` from the submitted
   * `model`: a blank name or description, a price of at most 0 or a negative
   * stock keeps the stored value; the image column is rewritten only when an
   * image (possibly empty) is supplied. The stored description is read with
   * `?.ToString() ?? ""`, so a NULL description kept by a blank one comes back
   * as "".
   */
  function MergeProduct(existing: ProductRow, model: ProductViewModel): ProductRow {
    existing.(
      name := if Blank(Some(model.productName)) then existing.name else model.productName,
      description := Some(if Blank(model.productDescription) then existing.description.GetOr("")
                          else model.productDescription.value),
      price := if model.price <= 0.0 then existing.price else model.price,
      stock := if model.stock < 0 then existing.stock else model.stock,
      image := if model.productImage.Some? then model.productImage else existing.image)
  }

  /**
   * The UPDATE never touches the key or the creation date, and writes into
   * each column either the stored value or the submitted one, never a third
   * value (a NULL description kept by a blank one is written back as "").
   */
  lemma MergeOnlyCopies(existing: ProductRow, model: ProductViewModel)
    ensures var r := MergeProduct(existing, model);
      && r.productId == existing.productId && r.created == existing.created
      && (r.name == existing.name || r.name == model.productName)
      && (r.description == Some(existing.description.GetOr("")) || r.description == model.productDescription)
      && (r.price == existing.price || r.price == model.price)
      && (r.stock == existing.stock || r.stock == model.stock)
      && (r.image == existing.image || r.image == model.productImage)
  {
  }

  /** Every field of the form is usable: a non-blank name and description, a positive price, a stock of at least 0 and an image. */
  predicate FullForm(model: ProductViewModel) {
    !Blank(Some(model.productName)) && !Blank(model.productDescription) && model.price > 0.0 && model.stock >= 0
    && model.productImage.Some?
  }

  /** After a fully filled form the stored row no longer matters: whatever an earlier update wrote is overwritten in every column. */
  lemma FullFormOverwrites(existing: ProductRow, earlier: ProductViewModel, model: ProductViewModel)
    requires FullForm(model)
    ensures MergeProduct(MergeProduct(existing, earlier), model) == MergeProduct(existing, model)
  {
  }

  /** Submitting the same form twice stores the same row as submitting it once. */
  lemma MergeIdempotent(existing: ProductRow, model: ProductViewModel)
    ensures MergeProduct(MergeProduct(existing, model), model) == MergeProduct(existing, model)
  {
  }

  /** A row with a non-blank name, a positive price and a non-negative stock keeps all three through any update. */
  lemma MergeKeepsRowSound(existing: ProductRow, model: ProductViewModel)
    requires !Blank(Some(existing.name)) && existing.price > 0.0 && existing.stock >= 0
    ensures var r := MergeProduct(existing, model);
      !Blank(Some(r.name)) && r.price > 0.0 && r.stock >= 0
  {
  }

  /** Submitting the row's own view back changes nothing, except that a NULL description becomes "". */
  lemma MergeOwnView(existing: ProductRow)
    ensures MergeProduct(existing, ToView(existing)) == existing.(description := Some(existing.description.GetOr("")))
  {
    var d := existing.description.GetOr("");
    if Blank(Some(d)) {
      assert MergeProduct(existing, ToView(existing)).description == Some(d);
    }
  }

  /** A form with every field blank or out of range changes nothing, except that a NULL description becomes "". */
  lemma MergeBlankForm(existing: ProductRow, id: int, created: int)
    ensures MergeProduct(existing, ProductViewModel(id, "", None, None, 0.0, -1, created))
         == existing.(description := Some(existing.description.GetOr("")))
  {
  }

  // ----- VerifySecurityAnswer -----

  /** What `SELECT SecurityAnswer ... WHERE UserName = @UserName` yields: no row, a NULL column, or a text. */
  datatype StoredAnswer = NoSuchUser | NullAnswer | Answer(text: string)

  /** The normal form both sides are compared in: trimmed, then lower-cased. */
  function Normalize(s: string): string {
    ToLower(Trim(s))
  }

  /**
   * `VerifySecurityAnswer` as written in Helpers/DbHelper.cs. No row gives a
   * null stored answer, which never equals a string; a NULL column prints as
   * "", so it is compared as the empty answer; a null `answer` throws and the
   * handler returns false.
   */
  predicate VerifySecurityAnswer(stored: StoredAnswer, answer: Option<string>) {
    answer.Some? &&
    match stored
    case NoSuchUser => false
    case NullAnswer => Normalize("") == Normalize(answer.value)
    case Answer(t) => Normalize(t) == Normalize(answer.value)
  }

  /**
   * `VerifySecurityAnswer` as written in Utilities/DbHelper.cs: no row or a
   * NULL column is rejected outright; otherwise the normalised stored answer
   * is compared with the trimmed answer ignoring case. The source compares
   * with `CurrentCultureIgnoreCase`; the model folds ASCII case only and
   * leaves out that comparison's canonical equivalence and ignorable
   * characters (see `EqualsIgnoreCase`).
   */
  predicate VerifySecurityAnswerChecked(stored: StoredAnswer, answer: Option<string>) {
    stored.Answer? && answer.Some? && EqualsIgnoreCase(Some(Normalize(stored.text)), Trim(answer.value))
  }

  /** The checked comparison accepts exactly a stored answer equal to the given one after trimming and lower-casing both. */
  lemma VerifySecurityAnswerCheckedIff(stored: StoredAnswer, answer: Option<string>)
    ensures VerifySecurityAnswerChecked(stored, answer) <==>
      stored.Answer? && answer.Some? && Normalize(stored.text) == Normalize(answer.value)
  {
    if stored.Answer? && answer.Some? {
      ToLowerIdempotent(Trim(stored.text));
    }
  }

  /** The two versions agree whenever a row with a non-NULL answer exists, or no row at all. */
  lemma VersionsAgreeOnStoredAnswers(stored: StoredAnswer, answer: Option<string>)
    requires !stored.NullAnswer?
    ensures VerifySecurityAnswer(stored, answer) == VerifySecurityAnswerChecked(stored, answer)
  {
    VerifySecurityAnswerCheckedIff(stored, answer);
  }

  /** The check ignores white space around the answer and the letter case of the answer. */
  lemma AnswerIgnoresPaddingAndCase(stored: StoredAnswer, answer: string)
    ensures VerifySecurityAnswer(stored, Some(Trim(answer))) == VerifySecurityAnswer(stored, Some(answer))
    ensures VerifySecurityAnswer(stored, Some(ToLower(answer))) == VerifySecurityAnswer(stored, Some(answer))
  {
    NormalizeIgnoresPadding(answer);
    NormalizeIgnoresCase(answer);
  }

  lemma NormalizeIgnoresPadding(s: string)
    ensures Normalize(Trim(s)) == Normalize(s)
  {
    TrimIdempotent(s);
  }

  lemma NormalizeIgnoresCase(s: string)
    ensures Normalize(ToLower(s)) == Normalize(s)
  {
    TrimToLower(s);
    ToLowerIdempotent(Trim(s));
  }

  /** With a NULL stored answer, an empty answer is accepted by the Helpers version and rejected by the checked one. */
  lemma NullStoredAnswerAcceptsBlank()
    ensures VerifySecurityAnswer(NullAnswer, Some(""))
    ensures !VerifySecurityAnswerChecked(NullAnswer, Some(""))
  {
    assert Trim("") == "";
  }
}
