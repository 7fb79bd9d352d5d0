/** The commands the view sends to the engine (`AppMsg`). */
module Commands {
  import opened PomoConfig

  /** The configuration edit (a closure over the configuration in the
      source) is given by the configuration it produces, and `songOpens`
      says whether the sound file at the edited path can be opened. */
  datatype Msg =
    | Ignore
    | Step
    | Toggle(explicit: Option<bool>)
    | Skip
    | Renew
    | Restart
    | ChangeConfig(edited: Config, songOpens: bool)

  /** The edit leaves a usable configuration. */
  predicate ValidMsg(m: Msg) {
    m.ChangeConfig? ==> ValidConfig(m.edited)
  }
}
