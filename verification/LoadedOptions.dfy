/**
  What a load makes of the options of an entry (config/config.go:110-133, 541-546): the last section
  that sets an option decides, and options that no section sets stay as they were.
 */
module LoadedOptions {
  import opened ConfigEntry
  import opened Configuration

  /** The section is one of the group and sets the option for the name. */
  predicate Sets(s: Section, others: bool, name: string, option: string) {
    (s.kind == Other <==> others) && s.name == name && option in s.values
  }

  /** The last section of the group that sets the option is number i. */
  predicate LastSets(sections: seq<Section>, others: bool, name: string, option: string, i: int) {
    && 0 <= i < |sections| && Sets(sections[i], others, name, option)
    && forall j | i < j < |sections| :: !Sets(sections[j], others, name, option)
  }

  predicate NoneSets(sections: seq<Section>, others: bool, name: string, option: string) {
    forall i | 0 <= i < |sections| :: !Sets(sections[i], others, name, option)
  }

  /** The value of the option, if the name has one. */
  predicate HasOption(snap: Snapshot, name: string, option: string) {
    name in snap && option in snap[name].values
  }

  predicate SameOption(snap: Snapshot, next: Snapshot, name: string, option: string) {
    && (HasOption(snap, name, option) <==> HasOption(next, name, option))
    && (HasOption(snap, name, option) && HasOption(next, name, option) ==> next[name].values[option] == snap[name].values[option])
  }

  lemma ParseSets(snap: Snapshot, s: Section, name: string, option: string)
    ensures if s.name == name && option in s.values
            then HasOption(Parse(snap, s), name, option) && Parse(snap, s)[name].values[option] == s.values[option]
            else SameOption(snap, Parse(snap, s), name, option)
  {
  }

  lemma {:induction false} GroupKeeps(snap: Snapshot, sections: seq<Section>, others: bool, name: string, option: string)
    requires NoneSets(sections, others, name, option)
    ensures SameOption(snap, ParseAll(snap, sections, others), name, option)
    decreases |sections|
  {
    if sections != [] {
      var init, last := sections[..|sections| - 1], sections[|sections| - 1];
      GroupKeeps(snap, init, others, name, option);
      ParseSets(ParseAll(snap, init, others), last, name, option);
    }
  }

  lemma {:induction false} GroupSets(snap: Snapshot, sections: seq<Section>, others: bool, name: string, option: string, i: int)
    requires LastSets(sections, others, name, option, i)
    ensures var next := ParseAll(snap, sections, others);
            HasOption(next, name, option) && next[name].values[option] == sections[i].values[option]
    decreases |sections|
  {
    var init, last := sections[..|sections| - 1], sections[|sections| - 1];
    ParseSets(ParseAll(snap, init, others), last, name, option);
    if i < |init| {
      assert init[i] == sections[i];
      GroupSets(snap, init, others, name, option, i);
    }
  }

  /**
    After a load an option has the value that the last section of another kind than programs and
    listeners sets, else the one that the last program or listener section sets, else its former one.
   */
  lemma LoadedOption(snap: Snapshot, sections: seq<Section>, name: string, option: string, i: int)
    ensures var next := Load(snap, sections);
            && (LastSets(sections, true, name, option, i) ==>
                  HasOption(next, name, option) && next[name].values[option] == sections[i].values[option])
            && (NoneSets(sections, true, name, option) && LastSets(sections, false, name, option, i) ==>
                  HasOption(next, name, option) && next[name].values[option] == sections[i].values[option])
            && (NoneSets(sections, true, name, option) && NoneSets(sections, false, name, option) ==>
                  SameOption(snap, next, name, option))
  {
    var half := ParseAll(snap, sections, false);
    if LastSets(sections, true, name, option, i) {
      GroupSets(half, sections, true, name, option, i);
    }
    if NoneSets(sections, true, name, option) {
      GroupKeeps(half, sections, true, name, option);
      if LastSets(sections, false, name, option, i) {
        GroupSets(snap, sections, false, name, option, i);
      }
      if NoneSets(sections, false, name, option) {
        GroupKeeps(snap, sections, false, name, option);
      }
    }
  }

  /** A section of a program or listener makes its entry one of that kind and that name. */
  lemma KindOf(snap: Snapshot, s: Section)
    ensures var name := Parse(snap, s)[s.name].name;
            && (s.kind == Program ==> IsProgramName(name) && ProgramOf(name) == s.name)
            && (s.kind == Listener ==> IsListenerName(name) && ListenerOf(name) == s.name && !IsProgramName(name))
  {
    PrefixedName(s.name);
  }
}
