/** The database error object seen by the edit screens' `catch` blocks and
    the text they search to tell which unique key was violated. */
module DbErrors {
  import opened Wrappers
  import opened Ascii

  /** PostgreSQL's `unique_violation` code. */
  const UniqueViolation: string := "23505"

  /** `error.code`, `error.message`, `error.details` and `error.detail`;
      `None` is a missing (undefined or null) property. */
  datatype DbError = DbError(code: string, message: Option<string>, details: Option<string>, detail: Option<string>)

  /** `x || ''` for an optional text. */
  function OrEmpty(x: Option<string>): string
  {
    match x
    case Some(s) => s
    case None => ""
  }

  /** `${message || ''} ${details || ''} ${detail || ''}`.toLowerCase() */
  function CombinedInfo(e: DbError): (info: string)
    ensures |info| == |OrEmpty(e.message)| + |OrEmpty(e.details)| + |OrEmpty(e.detail)| + 2
    ensures forall i :: 0 <= i < |info| ==> !('A' <= info[i] <= 'Z')
    ensures info == LowerCase(OrEmpty(e.message)) + " " + LowerCase(OrEmpty(e.details)) + " " + LowerCase(OrEmpty(e.detail))
  {
    var m, ds, d := OrEmpty(e.message), OrEmpty(e.details), OrEmpty(e.detail);
    LowerCaseConcat(m + " " + ds + " ", d);
    LowerCaseConcat(m + " " + ds, " ");
    LowerCaseConcat(m + " ", ds);
    LowerCaseConcat(m, " ");
    assert LowerCase(" ") == " ";
    LowerCase(m + " " + ds + " " + d)
  }

  /** The combined text mentions `word`. */
  predicate Mentions(e: DbError, word: string)
  {
    Contains(CombinedInfo(e), word)
  }

  /** What a screen shows after a failed save: its error map and an optional toast. */
  datatype Reaction<K> = Reaction(errors: map<K, string>, toast: Option<string>)

  /** A word written in lower case that appears anywhere in the message is
      found, whatever the case of the rest of the message. */
  lemma MessageMentions(e: DbError, before: string, word: string, after: string)
    requires e.message == Some(before + word + after)
    requires forall i :: 0 <= i < |word| ==> Lower(word[i]) == word[i]
    ensures Mentions(e, word)
  {
    var info := CombinedInfo(e);
    var n := |before|;
    assert info[n..n + |word|] == word by {
      forall j | 0 <= j < |word| ensures info[n + j] == word[j] {
        assert info[n + j] == Lower((before + word + after)[n + j]);
      }
    }
    assert OccursAt(info, word, n);
  }
}
