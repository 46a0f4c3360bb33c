/** One section of the configuration (config/config.go:18-79), its values as GetString returns them. */
module ConfigEntry {
  import opened Text

  const PROGRAM_PREFIX := "program:"
  const LISTENER_PREFIX := "eventlistener:"

  predicate IsProgramName(name: string) {
    PROGRAM_PREFIX <= name
  }

  predicate IsListenerName(name: string) {
    LISTENER_PREFIX <= name
  }

  function ProgramOf(name: string): string {
    if IsProgramName(name) then name[|PROGRAM_PREFIX|..] else ""
  }

  function ListenerOf(name: string): string {
    if IsListenerName(name) then name[|LISTENER_PREFIX|..] else ""
  }

  /** A prefixed name is a program exactly when the prefix is that of programs, and then the rest is its name. */
  lemma PrefixedName(name: string)
    ensures IsProgramName(PROGRAM_PREFIX + name) && ProgramOf(PROGRAM_PREFIX + name) == name
    ensures !IsProgramName(LISTENER_PREFIX + name) && IsListenerName(LISTENER_PREFIX + name) && ListenerOf(LISTENER_PREFIX + name) == name
  {
    assert (LISTENER_PREFIX + name)[0] == 'e' && PROGRAM_PREFIX[0] == 'p';
  }

  class Entry {
    var Name: string
    var Group: string
    var keyValues: map<string, string>

    constructor ()
      ensures Name == "" && Group == "" && keyValues == map[]
    {
      Name, Group, keyValues := "", "", map[];
    }

    predicate IsProgram()
      reads this
    {
      IsProgramName(Name)
    }

    function GetProgramName(): string
      reads this
    {
      ProgramOf(Name)
    }

    predicate IsEventListener()
      reads this
    {
      IsListenerName(Name)
    }

    function GetEventListenerName(): string
      reads this
    {
      ListenerOf(Name)
    }

    /** The names listed under depends_on: split at commas, trimmed, without empty ones. */
    function DependsOnNames(): seq<string>
      reads this
    {
      if "depends_on" in keyValues then NonEmpty(Split(keyValues["depends_on"], ',')) else []
    }

    function Priority(): int
      reads this
    {
      if "priority" in keyValues then
        match Atoi(keyValues["priority"])
        case Some(n) => n
        case None => 999
      else 999
    }
  }

  function NonEmpty(parts: seq<string>): seq<string> {
    if parts == [] then []
    else (if Trim(parts[0]) == "" then [] else [Trim(parts[0])]) + NonEmpty(parts[1..])
  }
}
