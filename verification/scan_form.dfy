/** The stand-alone scan form: it checks the typed URL and hands it to its
    `onScan` callback only when the check passes. */
module ScanForm {
  import opened Wrappers
  import Text

  const MissingUrlError := "Please enter a GitHub repository URL"
  const InvalidUrlError := "Please enter a valid GitHub repository URL"
  /** The substring a URL must contain to pass. */
  const GithubMarker := "github.com/"

  /** The verdict of `validateUrl` and the message it leaves on the form. */
  datatype Validation = Validation(ok: bool, error: string)

  /** `validateUrl`: the empty check first, then the substring check; a pass
      clears the message. */
  function ValidateUrl(url: string): (v: Validation)
    ensures v.ok <==> url != "" && exists i :: Text.OccursAt(url, GithubMarker, i)
    ensures url == "" ==> v.error == MissingUrlError
    ensures url != "" && !v.ok ==> v.error == InvalidUrlError
    ensures v.ok ==> v.error == ""
  {
    Text.IncludesIff(url, GithubMarker);
    if url == "" then Validation(false, MissingUrlError)
    else if !Text.Includes(url, GithubMarker) then Validation(false, InvalidUrlError)
    else Validation(true, "")
  }

  /** The form's state: the text in the input and the message under it. */
  datatype FormState = FormState(repoUrl: string, error: string)

  /** `handleSubmit`: validate the current input, show the verdict's
      message, and call `onScan` (the returned URL) only on a pass. */
  function HandleSubmit(st: FormState): (r: (FormState, Option<string>))
    ensures r.0.repoUrl == st.repoUrl
    ensures r.0.error == ValidateUrl(st.repoUrl).error
    ensures r.1.Some? <==> ValidateUrl(st.repoUrl).ok
    ensures r.1.Some? ==> r.1.value == st.repoUrl
  {
    var v := ValidateUrl(st.repoUrl);
    (st.(error := v.error), if v.ok then Some(st.repoUrl) else None)
  }

  /** The empty check runs first: the empty input gets the first message,
      never the second, though it does not contain the marker either. */
  lemma EmptyGetsMissingMessage()
    ensures ValidateUrl("") == Validation(false, MissingUrlError)
    ensures !Text.Includes("", GithubMarker)
  {
  }

  /** Any URL that contains the marker passes, wherever the marker sits. */
  lemma MarkerAnywherePasses(prefix: string, suffix: string)
    ensures ValidateUrl(prefix + GithubMarker + suffix).ok
  {
    var url := prefix + GithubMarker + suffix;
    assert url[|prefix|..|prefix| + |GithubMarker|] == GithubMarker;
    assert Text.OccursAt(url, GithubMarker, |prefix|);
  }

  /** A URL the form hands to `onScan` is never empty, and handing it on
      clears the message. */
  lemma PassedUrlIsNonEmpty(st: FormState)
    requires HandleSubmit(st).1.Some?
    ensures HandleSubmit(st).1.value != ""
    ensures HandleSubmit(st).0.error == ""
  {
  }
}
