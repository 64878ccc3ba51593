/** From a written configuration to the answers of ConfigReader. */
module ConfigLookup {
  import opened IniGrammar
  import opened IniRoundTrip
  import opened ConfigReaders

  /** The text of a configuration in canonical form. */
  function Written(config: seq<Section>, bom: bool, ended: bool): string {
    Concat(Rendered(ConfigLines(config), bom, ended))
  }

  /** The value lines written for one name in some settings. */
  function SettingsValues(ts: seq<Setting>, name: string): seq<string> {
    if ts == [] then []
    else (if SameUpToCase(ts[0].name, name) then [ts[0].value] + ts[0].more else []) + SettingsValues(ts[1..], name)
  }

  /** The value lines written for one section and name, in order. */
  function ConfigValues(config: seq<Section>, section: string, name: string): seq<string> {
    if config == [] then []
    else
      (if SameUpToCase(config[0].name, section) then SettingsValues(config[0].settings, name) else [])
      + ConfigValues(config[1..], section, name)
  }

  lemma {:induction false} ValuesAppend(a: seq<Event>, b: seq<Event>, section: string, name: string)
    ensures ValuesOf(a + b, section, name) == ValuesOf(a, section, name) + ValuesOf(b, section, name)
  {
    hide Concerns;
    if b == [] {
      assert a + b == a;
    } else {
      var n := |b| - 1;
      assert (a + b)[..|a| + n] == a + b[..n];
      ValuesAppend(a, b[..n], section, name);
    }
  }

  lemma OneValue(e: Event, section: string, name: string)
    ensures ValuesOf([e], section, name) == if Concerns(e, section, name) then [e.value] else []
  {
    assert [e][..0] == [] && ValuesOf([], section, name) == [];
  }

  lemma {:induction false} MoreSpoken(s: string, n: string, vs: seq<string>, section: string, name: string)
    ensures ValuesOf(MoreEvents(s, n, vs), section, name) == if Concerns(Event(s, n, ""), section, name) then vs else []
    ensures forall e :: e in MoreEvents(s, n, vs) ==> e.section == s && e.name == n
  {
    hide SameUpToCase;
    if vs != [] {
      OneValue(Event(s, n, vs[0]), section, name);
      MoreSpoken(s, n, vs[1..], section, name);
      ValuesAppend([Event(s, n, vs[0])], MoreEvents(s, n, vs[1..]), section, name);
    } else {
      assert ValuesOf([], section, name) == [];
    }
  }

  lemma SettingSpoken(s: string, t: Setting, section: string, name: string)
    ensures ValuesOf(SettingEvents(s, t), section, name)
         == if Concerns(Event(s, t.name, ""), section, name) then [t.value] + t.more else []
    ensures SettingEvents(s, t) != [] && forall e :: e in SettingEvents(s, t) ==> e.section == s && e.name == t.name
  {
    hide SameUpToCase;
    OneValue(Event(s, t.name, t.value), section, name);
    MoreSpoken(s, t.name, t.more, section, name);
    ValuesAppend([Event(s, t.name, t.value)], MoreEvents(s, t.name, t.more), section, name);
  }

  lemma {:induction false} SettingsSpoken(s: string, ts: seq<Setting>, section: string, name: string)
    requires forall i :: 0 <= i < |ts| ==> GoodSetting(ts[i])
    ensures ValuesOf(SettingsEvents(s, ts), section, name)
         == if SameUpToCase(s, section) then SettingsValues(ts, name) else []
    ensures EqualsFree(SettingsEvents(s, ts))
    ensures forall e :: e in SettingsEvents(s, ts) ==> e.section == s
    ensures SettingsEvents(s, ts) == [] <==> ts == []
  {
    hide SameUpToCase, SettingEvents;
    if ts != [] {
      SettingSpoken(s, ts[0], section, name);
      SettingsSpoken(s, ts[1..], section, name);
      ValuesAppend(SettingEvents(s, ts[0]), SettingsEvents(s, ts[1..]), section, name);
    } else {
      assert ValuesOf([], section, name) == [];
    }
  }

  predicate HasSettings(config: seq<Section>, section: string) {
    exists i :: 0 <= i < |config| && config[i].name == section && config[i].settings != []
  }

  /** The events of a configuration are its settings, each under its own section. */
  lemma {:induction false} ConfigSpoken(config: seq<Section>, section: string, name: string)
    requires forall i :: 0 <= i < |config| ==> GoodSection(config[i])
    ensures ValuesOf(ConfigEvents(config), section, name) == ConfigValues(config, section, name)
    ensures EqualsFree(ConfigEvents(config))
  {
    hide SameUpToCase, SettingsEvents, GoodSetting;
    if config != [] {
      var s := config[0];
      SettingsSpoken(s.name, s.settings, section, name);
      ConfigSpoken(config[1..], section, name);
      ValuesAppend(SettingsEvents(s.name, s.settings), ConfigEvents(config[1..]), section, name);
    } else {
      assert ValuesOf([], section, name) == [];
    }
  }

  lemma {:induction false} SectionsSpoken(config: seq<Section>, x: string)
    requires forall i :: 0 <= i < |config| ==> GoodSection(config[i])
    ensures HasSettings(config, x) <==> exists e :: e in ConfigEvents(config) && e.section == x
  {
    hide SettingsEvents, GoodSetting;
    if config != [] {
      var s, rest := config[0], config[1..];
      SettingsSpoken(s.name, s.settings, "", "");
      SectionsSpoken(rest, x);
      assert forall i :: 0 <= i < |rest| ==> rest[i] == config[i + 1];
      if HasSettings(rest, x) {
        var i :| 0 <= i < |rest| && rest[i].name == x && rest[i].settings != [];
        assert config[i + 1] == rest[i];
      }
      if s.settings != [] {
        assert SettingsEvents(s.name, s.settings)[0] in ConfigEvents(config);
      }
    }
  }

  /** Writing a configuration down and looking a setting up: the parse reports no error, the
      sections are those that have a setting, and a lookup returns the newline-join of the
      value lines written for the setting addressed, or the default if there are none.  For a
      name without '=' that is the setting of the section and name given. */
  lemma LookupReadsBack(config: seq<Section>, bom: bool, ended: bool, section: string, name: string, default: string)
    requires forall i :: 0 <= i < |config| ==> GoodSection(config[i])
    ensures var p := Run(Chunks(Written(config, bom, ended)), Handle, EMPTY);
            var (s, n) := Addressed(section, name);
            var vs := ConfigValues(config, s, n);
            && p.error == 0
            && (forall x :: x in p.user.sections <==> HasSettings(config, x))
            && Lookup(p.user, section, name, default) == (if vs == [] then default else JoinLines(DropEmpty(vs)))
            && ('=' !in name ==> (s, n) == (section, name))
  {
    hide Written, Chunks, Run, Handle, MakeKey, JoinLines, DropEmpty, GoodSection, SameUpToCase, HasSettings,
      ConfigValues, ConfigEvents, Addressed, ValuesOf, ValuesFor, EqualsFree;
    StoreWritten(config, bom, ended);
    var (s, n) := Addressed(section, name);
    ConfigSpoken(config, s, n);
    KeyedValues(ConfigEvents(config), section, name);
    forall x ensures HasSettings(config, x) <==> exists e :: e in ConfigEvents(config) && e.section == x {
      SectionsSpoken(config, x);
    }
  }

  lemma {:induction false} SettingsHaveNoNewlines(ts: seq<Setting>, name: string)
    requires forall i :: 0 <= i < |ts| ==> GoodSetting(ts[i])
    ensures forall i :: 0 <= i < |SettingsValues(ts, name)| ==> '\n' !in SettingsValues(ts, name)[i]
  {
    if ts != [] {
      hide SameUpToCase;
      SettingsHaveNoNewlines(ts[1..], name);
      assert GoodSetting(ts[0]);
      assert forall i :: 0 <= i < |ts[0].more| ==> GoodMore(ts[0].more[i]);
    }
  }

  lemma {:induction false} ValuesHaveNoNewlines(config: seq<Section>, section: string, name: string)
    requires forall i :: 0 <= i < |config| ==> GoodSection(config[i])
    ensures forall i :: 0 <= i < |ConfigValues(config, section, name)| ==>
              '\n' !in ConfigValues(config, section, name)[i]
  {
    if config != [] {
      hide GoodSetting, SameUpToCase;
      SettingsHaveNoNewlines(config[0].settings, name);
      ValuesHaveNoNewlines(config[1..], section, name);
    }
  }

  /** The value lines, from the first one that is not empty, are recovered by cutting the answer at
      its newlines. */
  lemma ValueLinesRecovered(config: seq<Section>, bom: bool, ended: bool, section: string, name: string,
                            default: string)
    requires forall i :: 0 <= i < |config| ==> GoodSection(config[i])
    requires var (s, n) := Addressed(section, name);
             DropEmpty(ConfigValues(config, s, n)) != []
    ensures var p := Run(Chunks(Written(config, bom, ended)), Handle, EMPTY);
            var (s, n) := Addressed(section, name);
            SplitLines(Lookup(p.user, section, name, default)) == DropEmpty(ConfigValues(config, s, n))
  {
    hide Written, Chunks, Run, Handle, Lookup, GoodSection, SameUpToCase, HasSettings, ConfigValues, Addressed,
      JoinLines, SplitLines;
    var (s, n) := Addressed(section, name);
    LookupReadsBack(config, bom, ended, section, name, default);
    ValuesHaveNoNewlines(config, s, n);
    DropEmptyIs(ConfigValues(config, s, n));
    SplitJoined(DropEmpty(ConfigValues(config, s, n)));
  }

  lemma StoreWritten(config: seq<Section>, bom: bool, ended: bool)
    requires forall i :: 0 <= i < |config| ==> GoodSection(config[i])
    ensures var p := Run(Chunks(Written(config, bom, ended)), Handle, EMPTY);
            p.error == 0 && StoreOf(ConfigEvents(config), p.user)
  {
    hide Handle, StoreOf, GoodSection;
    AcceptsAll();
    ConfigRoundTrip(config, bom, ended, Handle, EMPTY);
    Accumulation(ConfigEvents(config));
  }

  lemma AcceptsAll()
    ensures forall s, e :: Handle(s, e).1
  {}

  /** A name with '=' is never written, so it should never be found. */
  lemma {:induction false} NeverWritten(config: seq<Section>, section: string, name: string)
    requires forall i :: 0 <= i < |config| ==> GoodSection(config[i])
    requires '=' in name
    ensures ConfigValues(config, section, name) == []
  {
    if config != [] {
      hide GoodSetting, SameUpToCase;
      NeverInSettings(config[0].settings, name);
      NeverWritten(config[1..], section, name);
    }
  }

  lemma {:induction false} NeverInSettings(ts: seq<Setting>, name: string)
    requires forall i :: 0 <= i < |ts| ==> GoodSetting(ts[i])
    requires '=' in name
    ensures SettingsValues(ts, name) == []
  {
    if ts != [] {
      var k :| 0 <= k < |name| && name[k] == '=';
      assert |ts[0].name| == |name| ==> ts[0].name[k] != '=';
      NeverInSettings(ts[1..], name);
    }
  }

  /** When a lookup finds just what was written for its section and name: the name holds no
      '=', or the setting its key addresses is not written either. */
  lemma LookupExactIff(config: seq<Section>, section: string, name: string)
    requires forall i :: 0 <= i < |config| ==> GoodSection(config[i])
    ensures var (s, n) := Addressed(section, name);
            ValuesFor(ConfigEvents(config), MakeKey(section, name)) == ConfigValues(config, section, name)
            <==> '=' !in name || ConfigValues(config, s, n) == []
  {
    hide GoodSection, MakeKey, SameUpToCase;
    var (s, n) := Addressed(section, name);
    ConfigSpoken(config, s, n);
    KeyedValues(ConfigEvents(config), section, name);
    if '=' in name {
      NeverWritten(config, section, name);
    }
  }

  const SAMPLE := [Section("a=b", [Setting("c", "1", [])])]

  lemma SampleMeans()
    ensures forall i :: 0 <= i < |SAMPLE| ==> GoodSection(SAMPLE[i])
    ensures ConfigValues(SAMPLE, "a=b", "c") == ["1"]
  {
    var t := Setting("c", "1", []);
    assert GoodSetting(t);
    assert [t][1..] == [] && SettingsValues([], "c") == [];
    assert SettingsValues([t], "c") == ["1"];
    assert SAMPLE[1..] == [] && ConfigValues([], "a=b", "c") == [];
  }

  lemma SampleAddressed()
    ensures Addressed("a", "b=c") == ("a=b", "c")
  {
    hide MakeKey;
    assert LastEquals("b=c") == 1;
    assert "b=c"[..1] == "b" && "b=c"[1 + 1..] == "c";
    assert "a" + "=" + "b" == "a=b";
  }

  /** `[a=b] c=1` answers a lookup of b=c in section a, which it does not contain. */
  lemma FoundUnwritten(bom: bool, ended: bool)
    ensures var p := Run(Chunks(Written(SAMPLE, bom, ended)), Handle, EMPTY);
            && ConfigValues(SAMPLE, "a", "b=c") == []
            && Lookup(p.user, "a", "b=c", "none") == "1"
  {
    hide Written, Chunks, Run, Lookup, GoodSection, ConfigValues, Addressed;
    SampleMeans();
    SampleAddressed();
    NeverWritten(SAMPLE, "a", "b=c");
    LookupReadsBack(SAMPLE, bom, ended, "a", "b=c", "none");
    assert DropEmpty(["1"]) == ["1"] && JoinLines(["1"]) == "1";
  }
}
