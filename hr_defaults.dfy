/**
 * The HR content demo of js/main.js (initHRGenDemo): the per-task default
 * input values, the default put in the input when a task is chosen, the
 * empty-input guard of the generate button, and the swap that translates a
 * default left in the other language when generation runs.
 */
module HRDefaults {
  import opened Common

  datatype Task = Activity | Notice | OtherTask

  /** defaultValues[task]: the Chinese and the English default, if the task has one. */
  function Defaults(task: Task): Option<(string, string)>
  {
    match task
    case Activity => Some(("技術交流會", "Tech Meetup"))
    case Notice => Some(("新人報到公告", "New Employee Welcome"))
    case OtherTask => None
  }

  function OtherLang(lang: Lang): Lang { if lang == Zh then En else Zh }

  /** defaultValues[task][lang]; setDefaultValue puts it in the input when it exists. */
  function DefaultValue(task: Task, lang: Lang): Option<string>
  {
    match Defaults(task)
    case None => None
    case Some(pair) => Some(if lang == Zh then pair.0 else pair.1)
  }

  /**
   * The swap run when the generation timeout fires: an input still holding
   * the task's default in the other language is replaced by the default in
   * the page language; any other input is kept as typed.
   */
  function TranslateDefault(task: Task, lang: Lang, value: string): (r: string)
    ensures DefaultValue(task, OtherLang(lang)) == Some(value) ==> Some(r) == DefaultValue(task, lang)
    ensures DefaultValue(task, OtherLang(lang)) != Some(value) ==> r == value
  {
    match Defaults(task)
    case None => value
    case Some(pair) =>
      if lang == En && value == pair.0 then pair.1
      else if lang == Zh && value == pair.1 then pair.0
      else value
  }

  /**
   * The generate button: nothing happens while the input is empty;
   * otherwise the content is built from the input after the swap, so a
   * default of the task in either language comes out in the page language
   * and anything else typed is used as it stands.
   */
  function GenerateInput(task: Task, lang: Lang, value: string): (r: Option<string>)
    ensures r.None? <==> value == ""
    ensures value != "" && (DefaultValue(task, Zh) == Some(value) || DefaultValue(task, En) == Some(value))
            ==> r.Some? && Some(r.value) == DefaultValue(task, lang)
    ensures value != "" && DefaultValue(task, Zh) != Some(value) && DefaultValue(task, En) != Some(value)
            ==> r == Some(value)
  {
    if value == "" then None else Some(TranslateDefault(task, lang, value))
  }

  /**
   * A default chosen in one language and generated in the same or the
   * other one is always shown in the language of generation; and the swap
   * is idempotent.
   */
  lemma DefaultFollowsLanguage(task: Task, chosenIn: Lang, generatedIn: Lang, value: string)
    requires DefaultValue(task, chosenIn) == Some(value)
    ensures Some(TranslateDefault(task, generatedIn, value)) == DefaultValue(task, generatedIn)
    ensures TranslateDefault(task, generatedIn, TranslateDefault(task, generatedIn, value))
            == TranslateDefault(task, generatedIn, value)
  {
    if chosenIn != generatedIn {
      assert chosenIn == OtherLang(generatedIn);
    }
  }
}
