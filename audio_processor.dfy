/**
 * audio_processor.py: AudioProcessor.transcribe_audio turns whatever the
 * speech recognizer does with one file into a string, never raising.
 *
 * The recognizer is a function from (audio path, language tag) to one of the
 * four outcomes the source distinguishes.
 */
module AudioProcessor {
  import opened Wrappers
  import opened PathMapper

  /** config.LANGUAGE */
  const Language: string := "pt-BR"

  const Unintelligible: string := "Não foi possível entender o áudio."
  const Unreachable: string := "Erro ao conectar ao serviço de reconhecimento de fala."
  const FailurePrefix: string := "Erro ao processar o áudio: "

  /** What reading the file and calling recognize_google comes to. */
  datatype Recognition =
    | Recognized(text: string)        // the service returned a transcript
    | UnknownValue                    // sr.UnknownValueError: the speech was not understood
    | RequestError(reason: string)    // sr.RequestError: the service could not be reached
    | Failure(description: string)    // any other exception, with str(e)

  /** The classified outcome of one transcription. */
  datatype Outcome = Ok | NotUnderstood | ServiceUnreachable | OtherFailure

  function OutcomeOf(o: Recognition): Outcome
  {
    match o
    case Recognized(_) => Ok
    case UnknownValue => NotUnderstood
    case RequestError(_) => ServiceUnreachable
    case Failure(_) => OtherFailure
  }

  /** The text transcribe_audio returns for an outcome: the transcript or a placeholder. */
  function Transcript(o: Recognition): (r: string)
    ensures o.Recognized? ==> r == o.text
    ensures !o.Recognized? ==> |r| > 0
  {
    match o
    case Recognized(text) => text
    case UnknownValue => Unintelligible
    case RequestError(_) => Unreachable
    case Failure(description) => FailurePrefix + description
  }

  /** AudioProcessor.transcribe_audio: recognize the file in the configured language. */
  function TranscribeAudio(recognize: (Path, string) -> Recognition, audioPath: Path): (r: string)
    ensures recognize(audioPath, Language).Recognized? ==> r == recognize(audioPath, Language).text
    ensures !recognize(audioPath, Language).Recognized? ==> |r| > 0
  {
    Transcript(recognize(audioPath, Language))
  }

  /** The recognizer is only ever asked about the configured language. */
  lemma OnlyConfiguredLanguage(r1: (Path, string) -> Recognition, r2: (Path, string) -> Recognition, audioPath: Path)
    requires r1(audioPath, Language) == r2(audioPath, Language)
    ensures TranscribeAudio(r1, audioPath) == TranscribeAudio(r2, audioPath)
  {
  }

  predicate StartsWith(s: string, prefix: string)
  {
    |prefix| <= |s| && s[..|prefix|] == prefix
  }

  /** Reads the failure class back from a placeholder text, if it is one. */
  function PlaceholderKind(s: string): Option<Outcome>
  {
    if s == Unintelligible then Some(NotUnderstood)
    else if s == Unreachable then Some(ServiceUnreachable)
    else if StartsWith(s, FailurePrefix) then Some(OtherFailure)
    else None
  }

  /**
   * The three placeholders cannot be confused: every failure's text names
   * its own class, and the other-failure text still carries str(e).
   */
  lemma PlaceholdersIdentifyFailure(o: Recognition)
    requires !o.Recognized?
    ensures PlaceholderKind(Transcript(o)) == Some(OutcomeOf(o))
    ensures o.Failure? ==> Transcript(o)[|FailurePrefix|..] == o.description
  {
    // The placeholders differ in length, and at index 26 from the prefix of the third.
    assert |Unintelligible| == 34 && |Unreachable| == 54 && |FailurePrefix| == 27;
    assert Unintelligible[26] == 'o' && Unreachable[26] == 'o' && FailurePrefix[26] == ' ';
    match o
    case UnknownValue =>
      assert !StartsWith(Unintelligible, FailurePrefix) by {
        assert Unintelligible[..|FailurePrefix|][26] != FailurePrefix[26];
      }
    case RequestError(_) =>
      assert !StartsWith(Unreachable, FailurePrefix) by {
        assert Unreachable[..|FailurePrefix|][26] != FailurePrefix[26];
      }
    case Failure(e) =>
      var t := FailurePrefix + e;
      assert t[26] == ' ';
      assert t != Unintelligible;
      assert t != Unreachable;
      assert t[..|FailurePrefix|] == FailurePrefix;
  }

  /** Two failures with the same text are the same failure. */
  lemma FailureTextInjective(o1: Recognition, o2: Recognition)
    requires !o1.Recognized? && !o2.Recognized?
    requires Transcript(o1) == Transcript(o2)
    ensures OutcomeOf(o1) == OutcomeOf(o2)
    ensures o1.Failure? ==> o1.description == o2.description
  {
    PlaceholdersIdentifyFailure(o1);
    PlaceholdersIdentifyFailure(o2);
  }
}
