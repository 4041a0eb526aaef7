/** The validation gate that runs before any download work: the account
    must be known, then the locale. */
module Validation {
  import opened Common
  import opened Text
  import opened Library

  /** errorTitle: the book's title, cut to 50 characters plus "..." when it is
      longer than 53, followed by " [productId]". */
  function ErrorTitle(title: string, productId: string): (r: string)
    ensures |title| <= 53 ==> r == title + " [" + productId + "]"
    ensures |title| > 53 ==> r == title[..50] + "..." + " [" + productId + "]"
    ensures |r| - |productId| - 3 <= 53
    ensures |r| >= |productId| + 3 && r[|r| - |productId| - 3..] == " [" + productId + "]"
  {
    var shown := if |title| > 53 then Truncate(title, 50) + "..." else title;
    shown + " [" + productId + "]"
  }

  /** The text of the exception validate throws for a missing field: the error
      title, then a sentence naming the field that is not known. */
  function ErrorString(title: string, productId: string, field: string): (r: string)
    ensures IsPrefix(ErrorTitle(title, productId), r)
    ensures ContainsOrdinal(r, field + " is not known.")
  {
    var head := ErrorTitle(title, productId) + "\r\nCannot download book. ";
    var notKnown := field + " is not known.";
    var r := head + notKnown + " Try re-importing the account which owns this book.";
    assert r[|head|..|head| + |notKnown|] == notKnown;
    assert OccursAt(r, notKnown, |head|);
    ContainsOrdinalAt(r, notKnown);
    r
  }

  /** validate: None when the book passes, otherwise Some(message of the
      exception it throws). The account is checked first, then the locale. */
  function ValidationError(account: Option<string>, book: Book): (r: Option<string>)
    ensures r.None? <==> !IsNullOrWhiteSpace(account) && !IsNullOrWhiteSpace(book.locale)
    ensures IsNullOrWhiteSpace(account) ==>
      r == Some(ErrorString(book.title, book.audibleProductId, "Account"))
    ensures !IsNullOrWhiteSpace(account) && IsNullOrWhiteSpace(book.locale) ==>
      r == Some(ErrorString(book.title, book.audibleProductId, "Locale"))
    ensures r.Some? ==> IsPrefix(ErrorTitle(book.title, book.audibleProductId), r.value)
  {
    if IsNullOrWhiteSpace(account) then Some(ErrorString(book.title, book.audibleProductId, "Account"))
    else if IsNullOrWhiteSpace(book.locale) then Some(ErrorString(book.title, book.audibleProductId, "Locale"))
    else None
  }
}
