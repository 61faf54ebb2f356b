/** Reading a new post's title and content out of the post form. */
module Posts {
  import opened Wrappers
  import opened FormData
  import opened JsText
  import opened PostValidation

  /** The object `extractPostData` returns: the two form values as they were entered. */
  datatype PostData = PostData(title: FormEntry, content: FormEntry)

  const TitleMessage: string := "A title must be provided."
  const ContentMessage: string := "Content must not be empty!"

  /** A looked-up value that is a string made of whitespace only (it may be empty). */
  predicate IsBlankText(e: Option<FormEntry>) {
    e.Some? && e.value.Text? && IsBlank(e.value.text)
  }

  /** `extractPostData`: nothing (`undefined`) when the title or the content is missing or
      empty; otherwise the title is validated, then the content, and both are returned
      unchanged. */
  function ExtractPostData(form: Form): (r: Result<Option<PostData>, ValidationError>)
    ensures r == Ok(None) <==> !IsTruthy(Get(form, "title")) || !IsTruthy(Get(form, "content"))
    ensures r == Err(ValidationError(TitleMessage)) <==>
              IsTruthy(Get(form, "title")) && IsTruthy(Get(form, "content"))
              && IsBlankText(Get(form, "title"))
    ensures r == Err(ValidationError(ContentMessage)) <==>
              IsTruthy(Get(form, "title")) && IsTruthy(Get(form, "content"))
              && !IsBlankText(Get(form, "title")) && IsBlankText(Get(form, "content"))
    ensures r.Ok? && r.value.Some? ==>
              Get(form, "title") == Some(r.value.value.title)
              && Get(form, "content") == Some(r.value.value.content)
              && !IsBlankText(Get(form, "title")) && !IsBlankText(Get(form, "content"))
    ensures IsTruthy(Get(form, "title")) && IsTruthy(Get(form, "content"))
            && !IsBlankText(Get(form, "title")) && !IsBlankText(Get(form, "content")) ==>
              r == Ok(Some(PostData(Get(form, "title").value, Get(form, "content").value)))
  {
    var title := Get(form, "title");
    var content := Get(form, "content");
    if !IsTruthy(title) || !IsTruthy(content) then Ok(None)
    else
      match ValidateNotEmpty(title.value, TitleMessage)
      case Fail(e) => Err(e)
      case Pass =>
        match ValidateNotEmpty(content.value, ContentMessage)
        case Fail(e) => Err(e)
        case Pass => Ok(Some(PostData(title.value, content.value)))
  }

  /** `{title: 'Foo', content: 'Bar'}` is extracted as it is. */
  lemma ExtractFooBar()
    ensures ExtractPostData([("title", Text("Foo")), ("content", Text("Bar"))])
            == Ok(Some(PostData(Text("Foo"), Text("Bar"))))
  {
    assert !IsWhitespace("Foo"[0]);
    assert !IsWhitespace("Bar"[0]);
  }
}
