/** A message as the mail services hand it to the endpoints: a dictionary whose keys may be missing. */
module RawMail {
  import opened Wrappers
  import opened Text

  datatype RawEmail = RawEmail(
    id: Option<string>,
    subject: Option<string>,
    sender: Option<string>,
    snippet: Option<string>,
    body: Option<string>)

  /** `email.get("sender", "")`. */
  function Sender(e: RawEmail): string {
    e.sender.GetOr("")
  }

  /** `email.get("body") or email.get("snippet", "")`: the text handed to the intent classifier. */
  function ClassificationText(e: RawEmail): (text: string)
    ensures e.body.Some? && e.body.value != [] ==> text == e.body.value
    ensures (e.body.None? || e.body.value == []) ==> text == e.snippet.GetOr("")
  {
    match e.body
    case Some(b) => if b != [] then b else e.snippet.GetOr("")
    case None => e.snippet.GetOr("")
  }

  /** The preview length of `email.get("snippet", "")[:300]`. */
  const PreviewLength: nat := 300

  /** `email.get("snippet", "")[:300]`: the longest prefix of the snippet of at most 300 characters. */
  function SnippetPreview(e: RawEmail): (preview: string)
    ensures |preview| <= PreviewLength
    ensures StartsWith(e.snippet.GetOr(""), preview)
    ensures |e.snippet.GetOr("")| <= PreviewLength ==> preview == e.snippet.GetOr("")
    ensures |e.snippet.GetOr("")| > PreviewLength ==> |preview| == PreviewLength
  {
    var s := e.snippet.GetOr("");
    if |s| <= PreviewLength then s else s[..PreviewLength]
  }
}
