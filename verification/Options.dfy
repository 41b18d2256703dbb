/**
  The configuration program's options (aux/toolchain/mu-config/main.c): what a configuration
  string asks for, and what enabling an option implies.
 */
module OptionsModel {
  import opened Optional

  datatype Kind = Implies | Requires | MutuallyExcludes

  datatype Requirement = Requirement(kind: Kind, option: string)

  /** One item of a configuration string, or one setting made from it. */
  datatype Setting = Setting(option: string, enable: bool)

  type Edges = set<(string, string)>

  // ---------- Names ----------

  function Lower(c: char): char {
    if 'A' <= c <= 'Z' then c - 'A' + 'a' else c
  }

  /** Names are compared without regard to case, so an option is known by its lower-case name. */
  function Fold(name: string): (r: string)
    ensures |r| == |name| && forall i :: 0 <= i < |name| ==> r[i] == Lower(name[i])
  {
    if name == "" then "" else [Lower(name[0])] + Fold(name[1..])
  }

  /** The same character, or the same letter in the other case. */
  predicate SameLetter(c: char, d: char) {
    || c == d
    || ('A' <= c <= 'Z' && d as int == c as int + 32)
    || ('A' <= d <= 'Z' && c as int == d as int + 32)
  }

  lemma LowerIgnoresCase(c: char, d: char)
    ensures Lower(c) == Lower(d) <==> SameLetter(c, d)
  {
  }

  /** Exactly the names that differ in case alone are one option. */
  lemma {:induction false} FoldIgnoresCase(s: string, t: string)
    requires |s| == |t|
    ensures Fold(s) == Fold(t) <==> forall i :: 0 <= i < |s| ==> SameLetter(s[i], t[i])
  {
    if Fold(s) == Fold(t) {
      forall i | 0 <= i < |s| ensures SameLetter(s[i], t[i]) {
        LowerIgnoresCase(s[i], t[i]);
        assert Fold(s)[i] == Fold(t)[i];
      }
    }
    if forall i :: 0 <= i < |s| ==> SameLetter(s[i], t[i]) {
      forall i | 0 <= i < |s| ensures Fold(s)[i] == Fold(t)[i] {
        LowerIgnoresCase(s[i], t[i]);
      }
    }
  }

  // ---------- Closure ----------

  /** Whatever an enabled option implies is enabled. */
  ghost predicate Closed(edges: Edges, enabled: set<string>) {
    forall e :: e in edges && e.0 in enabled ==> e.1 in enabled
  }

  /** The least set that holds `start` and is closed. */
  ghost predicate IsClosure(edges: Edges, start: set<string>, r: set<string>) {
    && start <= r && Closed(edges, r)
    && forall t: set<string> :: start <= t && Closed(edges, t) ==> r <= t
  }

  ghost predicate Implied(edges: Edges, enabled: set<string>, x: string) {
    exists o :: o in enabled && (o, x) in edges
  }

  /** On the way from `start` to its closure. */
  ghost predicate Reached(edges: Edges, start: set<string>, enabled: set<string>) {
    start <= enabled && forall t: set<string> :: start <= t && Closed(edges, t) ==> enabled <= t
  }

  lemma ReachedMore(edges: Edges, start: set<string>, enabled: set<string>, x: string)
    requires Reached(edges, start, enabled) && Implied(edges, enabled, x)
    ensures Reached(edges, start, enabled + {x})
  {
    var o :| o in enabled && (o, x) in edges;
    forall t: set<string> | start <= t && Closed(edges, t) ensures enabled + {x} <= t {
      assert o in t && (o, x) in edges;
    }
  }

  /** There is one closure, whatever order the options and their requirements stand in. */
  lemma ClosureUnique(edges: Edges, start: set<string>, r: set<string>, q: set<string>)
    requires IsClosure(edges, start, r) && IsClosure(edges, start, q)
    ensures r == q
  {
  }

  /** Asking for more enables at least as much, and asking for what is enabled anyway changes nothing. */
  lemma ClosureGrows(edges: Edges, start: set<string>, more: set<string>, r: set<string>, q: set<string>)
    requires IsClosure(edges, start, r) && IsClosure(edges, start + more, q)
    ensures r <= q && (more <= r ==> q == r)
  {
    assert start <= q;
    if more <= r {
      assert start + more <= r;
    }
  }

  // ---------- Configuration strings ----------

  const NAME_MAX: nat := 1024

  predicate Sign(c: char) {
    c == '-' || c == '+'
  }

  /** strcspn(s, "-+") */
  function NameLength(s: string): (n: nat)
    ensures n <= |s| && (forall i :: 0 <= i < n ==> !Sign(s[i])) && (n < |s| ==> Sign(s[n]))
  {
    if s == "" || Sign(s[0]) then 0 else 1 + NameLength(s[1..])
  }

  /** The text after an optional sign; only the first item may go without. */
  function Body(s: string): string {
    if s != "" && Sign(s[0]) then s[1..] else s
  }

  /** The string's items in order, or None where the program gives up on it. */
  function Parse(s: string, first: bool): Option<seq<Setting>>
    decreases |s|
  {
    if s == "" then Some([])
    else if !Sign(s[0]) && !first then None
    else
      var body := Body(s);
      var n := NameLength(body);
      if n == 0 || n > NAME_MAX then None
      else
        match Parse(body[n..], false)
        case None => None
        case Some(rest) => Some([Setting(Fold(body[..n]), s[0] != '-')] + rest)
  }

  /** What the items last say of an option. */
  ghost function Last(items: seq<Setting>, option: string): Option<bool> {
    if items == [] then None
    else
      var i := items[|items| - 1];
      if i.option == option then Some(i.enable) else Last(items[..|items| - 1], option)
  }

  ghost function Given(items: seq<Setting>, enable: bool): set<string> {
    set i | 0 <= i < |items| && Last(items, items[i].option) == Some(enable) :: items[i].option
  }

  /** The text of an item, as Parse reads it back. */
  function Text(i: Setting): string {
    [if i.enable then '+' else '-'] + i.option
  }

  function Join(items: seq<Setting>): string {
    if items == [] then "" else Text(items[0]) + Join(items[1..])
  }

  /** A name that Parse can give. */
  ghost predicate Name(s: string) {
    0 < |s| <= NAME_MAX && Fold(s) == s && forall i :: 0 <= i < |s| ==> !Sign(s[i])
  }

  /** An item in front of a string that goes on with a sign is read as that item. */
  lemma ParseItem(i: Setting, rest: string, first: bool)
    requires Name(i.option) && (rest != "" ==> Sign(rest[0]))
    requires Parse(rest, false).Some?
    ensures Parse(Text(i) + rest, first) == Some([i] + Parse(rest, false).value)
  {
    var name, sign := i.option, if i.enable then '+' else '-';
    var body := name + rest;
    SignInFront(sign, name, rest);
    NameInFront(name, rest);
    assert body[..|name|] == name && body[|name|..] == rest;
    ParseStep(sign, body, first);
  }

  lemma SignInFront(sign: char, name: string, rest: string)
    ensures [sign] + name + rest == [sign] + (name + rest)
  {
  }

  lemma ParseStep(sign: char, body: string, first: bool)
    requires Sign(sign) && 0 < NameLength(body) <= NAME_MAX && Parse(body[NameLength(body)..], false).Some?
    ensures var n := NameLength(body);
            Parse([sign] + body, first) == Some([Setting(Fold(body[..n]), sign != '-')] + Parse(body[n..], false).value)
  {
    assert ([sign] + body)[1..] == body;
  }

  lemma NameInFront(name: string, rest: string)
    requires (forall i :: 0 <= i < |name| ==> !Sign(name[i])) && (rest != "" ==> Sign(rest[0]))
    ensures NameLength(name + rest) == |name|
  {
    var body := name + rest;
    assert forall i :: 0 <= i < |name| ==> body[i] == name[i];
    assert body[|name|..] == rest;
  }

  lemma JoinStarts(items: seq<Setting>)
    ensures Join(items) != "" ==> Sign(Join(items)[0])
  {
  }

  /** Any list of settings written out with its signs is read back as that list. */
  lemma {:induction false} ParseJoin(items: seq<Setting>, first: bool)
    requires forall i :: 0 <= i < |items| ==> Name(items[i].option)
    ensures Parse(Join(items), first) == Some(items)
  {
    if items != [] {
      ParseJoin(items[1..], false);
      JoinStarts(items[1..]);
      ParseItem(items[0], Join(items[1..]), first);
      assert items == [items[0]] + items[1..];
    }
  }

  /** Items as they are spelled in the string. */
  ghost predicate Spelled(items: seq<Setting>) {
    forall i :: 0 <= i < |items| ==> 0 < |items[i].option| <= NAME_MAX && forall j :: 0 <= j < |items[i].option| ==> !Sign(items[i].option[j])
  }

  /** The string is the items with their signs; the first may go without its plus. */
  ghost predicate Writes(s: string, first: bool, items: seq<Setting>) {
    || s == Join(items)
    || (first && items != [] && items[0].enable && s == Join(items)[1..])
  }

  ghost function Folded(items: seq<Setting>): seq<Setting> {
    seq(|items|, i requires 0 <= i < |items| => Setting(Fold(items[i].option), items[i].enable))
  }

  lemma FoldedCons(i: Setting, items: seq<Setting>)
    ensures Folded([i] + items) == [Setting(Fold(i.option), i.enable)] + Folded(items)
  {
  }

  /** What the program accepts is items in that form, and it reads them with their names folded. */
  lemma {:induction false} ParseOnly(s: string, first: bool) returns (items: seq<Setting>)
    requires Parse(s, first).Some?
    ensures Spelled(items) && Writes(s, first, items) && Parse(s, first).value == Folded(items)
    decreases |s|
  {
    if s == "" {
      items := [];
    } else {
      var name, tail := ParseHead(s, first);
      var rest := ParseOnly(tail, false);
      items := ItemInFront(s, first, name, tail, rest);
    }
  }

  /** An accepted string begins with a name, after a sign that only the first item may lack. */
  lemma ParseHead(s: string, first: bool) returns (name: string, tail: string)
    requires s != "" && Parse(s, first).Some?
    ensures 0 < |name| <= NAME_MAX && (forall j :: 0 <= j < |name| ==> !Sign(name[j]))
    ensures if Sign(s[0]) then s == [s[0]] + (name + tail) else first && s == name + tail
    ensures |tail| < |s| && Parse(tail, false).Some?
    ensures Parse(s, first).value == [Setting(Fold(name), s[0] != '-')] + Parse(tail, false).value
  {
    var n := NameLength(Body(s));
    ParseUnfold(s, first, n);
    BodySplit(s, n);
    name, tail := Body(s)[..n], Body(s)[n..];
  }

  lemma ParseUnfold(s: string, first: bool, n: nat)
    requires s != "" && Parse(s, first).Some? && n == NameLength(Body(s))
    ensures (Sign(s[0]) || first) && 0 < n <= NAME_MAX && Parse(Body(s)[n..], false).Some?
    ensures Parse(s, first).value == [Setting(Fold(Body(s)[..n]), s[0] != '-')] + Parse(Body(s)[n..], false).value
  {
  }

  lemma BodySplit(s: string, n: nat)
    requires s != "" && 0 < n <= |Body(s)|
    ensures var name, tail := Body(s)[..n], Body(s)[n..];
            |tail| < |s| && s == if Sign(s[0]) then [s[0]] + (name + tail) else name + tail
  {
    assert Body(s)[..n] + Body(s)[n..] == Body(s);
    assert s == [s[0]] + s[1..];
  }

  lemma ItemInFront(s: string, first: bool, name: string, tail: string, rest: seq<Setting>) returns (items: seq<Setting>)
    requires 0 < |name| <= NAME_MAX && (forall j :: 0 <= j < |name| ==> !Sign(name[j]))
    requires s != "" && if Sign(s[0]) then s == [s[0]] + (name + tail) else first && s == name + tail
    requires Spelled(rest) && tail == Join(rest)
    ensures Spelled(items) && Writes(s, first, items)
    ensures Folded(items) == [Setting(Fold(name), s[0] != '-')] + Folded(rest)
  {
    var item := Setting(name, s[0] != '-');
    items := [item] + rest;
    FoldedCons(item, rest);
    JoinCons(item, rest);
    var sign := if item.enable then '+' else '-';
    SignInFront(sign, name, tail);
    assert Join(items) == [sign] + (name + tail);
    assert ([sign] + (name + tail))[1..] == name + tail;
  }

  lemma JoinCons(item: Setting, rest: seq<Setting>)
    ensures Join([item] + rest) == Text(item) + Join(rest)
  {
    assert ([item] + rest)[1..] == rest;
  }

  /** ... and it accepts every such string. */
  lemma {:induction false} ParseEvery(s: string, first: bool, items: seq<Setting>)
    requires Spelled(items) && Writes(s, first, items)
    ensures Parse(s, first) == Some(Folded(items))
    decreases |items|
  {
    if items == [] {
      assert Folded(items) == [];
    } else {
      var item, rest := items[0], items[1..];
      assert items == [item] + rest;
      ParseEvery(Join(rest), false, rest);
      JoinStarts(rest);
      FoldedCons(item, rest);
      ParseFront(s, first, item, Join(rest));
    }
  }

  lemma ParseFront(s: string, first: bool, item: Setting, rest: string)
    requires 0 < |item.option| <= NAME_MAX && (forall j :: 0 <= j < |item.option| ==> !Sign(item.option[j]))
    requires s == Text(item) + rest || (first && item.enable && s == (Text(item) + rest)[1..])
    requires (rest != "" ==> Sign(rest[0])) && Parse(rest, false).Some?
    ensures Parse(s, first) == Some([Setting(Fold(item.option), item.enable)] + Parse(rest, false).value)
  {
    var body := item.option + rest;
    NameInFront(item.option, rest);
    assert body[..|item.option|] == item.option && body[|item.option|..] == rest;
    var sign := if item.enable then '+' else '-';
    SignInFront(sign, item.option, rest);
    if s == Text(item) + rest {
      ParseStep(sign, body, first);
    } else {
      assert ([sign] + body)[1..] == body;
      ParseBare(body, |item.option|);
    }
  }

  lemma ParseBare(body: string, n: nat)
    requires n == NameLength(body) && 0 < n <= NAME_MAX && Parse(body[n..], false).Some?
    ensures Parse(body, true) == Some([Setting(Fold(body[..n]), true)] + Parse(body[n..], false).value)
  {
  }
}

module Options {
  import opened Optional
  import opened OptionsModel
  import opened Queues

  /** The pairs of an option and an option it implies. */
  ghost function Implications(requirements: map<string, seq<Requirement>>): Edges {
    set o, i | o in requirements && 0 <= i < |requirements[o]| && requirements[o][i].kind == Implies ::
      (o, requirements[o][i].option)
  }

  /** All requirements, with the options that have them. */
  ghost function Relations(requirements: map<string, seq<Requirement>>): set<(string, Requirement)> {
    set o, i | o in requirements && 0 <= i < |requirements[o]| :: (o, requirements[o][i])
  }

  lemma ImplicationsRelate(requirements: map<string, seq<Requirement>>, o: string, p: string)
    ensures (o, p) in Implications(requirements) <==> (o, Requirement(Implies, p)) in Relations(requirements)
  {
    if (o, p) in Implications(requirements) {
      var i :| 0 <= i < |requirements[o]| && requirements[o][i].kind == Implies && requirements[o][i].option == p;
      assert requirements[o][i] == Requirement(Implies, p);
    }
  }

  /** What a requirement of an enabled option asks of the options that are on. */
  predicate Sound(on: set<string>, e: (string, Requirement)) {
    e.0 in on ==>
      match e.1.kind
      case Implies => true
      case Requires => e.1.option in on
      case MutuallyExcludes => e.1.option !in on
  }

  ghost function On(enable: map<string, bool>): set<string> {
    set o | o in enable && enable[o]
  }

  ghost function OffNames(enable: map<string, bool>): set<string> {
    set o | o in enable && !enable[o]
  }

  class Configuration {
    var options: seq<string>
    var enable: map<string, bool>
    var requirements: map<string, seq<Requirement>>
    var settings: seq<Setting>

    ghost predicate Valid()
      reads this
    {
      && NoRepeats(options)
      && (forall o :: o in options <==> o in enable)
      && enable.Keys == requirements.Keys
      && (forall o, i :: o in requirements && 0 <= i < |requirements[o]| ==> requirements[o][i].option in enable)
      && (forall i :: 0 <= i < |settings| ==> settings[i].option in enable)
      && (forall i, j :: 0 <= i < j < |settings| ==> settings[i].option != settings[j].option)
    }

    constructor ()
      ensures Valid() && options == [] && settings == [] && enable == map[]
    {
      options, enable, requirements, settings := [], map[], map[], [];
    }

    // ---------- What CONFIG files declare ----------

    method MakeOption(name: string)
      requires Valid()
      modifies this
      ensures Valid() && settings == old(settings)
      ensures enable == (if Fold(name) in old(enable) then old(enable) else old(enable)[Fold(name) := false])
      ensures requirements == (if Fold(name) in old(enable) then old(requirements) else old(requirements)[Fold(name) := []])
      ensures On(enable) == old(On(enable)) && Implications(requirements) == old(Implications(requirements))
      ensures Relations(requirements) == old(Relations(requirements)) && enable.Keys == old(enable.Keys) + {Fold(name)}
    {
      var o := Fold(name);
      if o in options {
        return;
      }
      NewOption(enable, requirements, o);
      NewRelations(requirements, o);
      options := [o] + options;
      enable := enable[o := false];
      requirements := requirements[o := []];
    }

    method MakeBoth(name: string, other: string)
      requires Valid()
      modifies this
      ensures Valid() && settings == old(settings) && enable.Keys == old(enable.Keys) + {Fold(name), Fold(other)}
      ensures On(enable) == old(On(enable)) && Implications(requirements) == old(Implications(requirements))
      ensures Relations(requirements) == old(Relations(requirements))
    {
      MakeOption(name);
      MakeOption(other);
    }

    /** `ok` is false for a requirement of an option on itself. */
    method MakeRequirement(name: string, kind: Kind, other: string) returns (ok: bool)
      requires Valid()
      modifies this
      ensures Valid() && settings == old(settings) && (ok <==> Fold(name) != Fold(other))
      ensures enable.Keys == old(enable.Keys) + {Fold(name), Fold(other)}
      ensures On(enable) == old(On(enable))
      ensures ok ==>
                (Implications(requirements) ==
                 old(Implications(requirements)) + if kind == Implies then {(Fold(name), Fold(other))} else {})
      ensures Relations(requirements) ==
              old(Relations(requirements)) + if ok then {(Fold(name), Requirement(kind, Fold(other)))} else {}
    {
      var o, p := Fold(name), Fold(other);
      MakeBoth(name, other);
      if o == p {
        return false;
      }
      AddRequirement(o, Requirement(kind, p));
      return true;
    }

    method AddRequirement(o: string, r: Requirement)
      requires Valid() && o in enable && r.option in enable
      modifies this`requirements
      ensures Valid()
      ensures Implications(requirements) ==
              old(Implications(requirements)) + if r.kind == Implies then {(o, r.option)} else {}
      ensures Relations(requirements) == old(Relations(requirements)) + {(o, r)}
    {
      ImplicationsMore(requirements, o, r);
      RelationsMore(requirements, o, r);
      requirements := requirements[o := [r] + requirements[o]];
    }

    // ---------- imply ----------

    /** One scan: the first option that an enabled one implies and that is not enabled. */
    method Scan() returns (hit: Option<string>)
      requires Valid()
      ensures hit.None? ==> Closed(Implications(requirements), On(enable))
      ensures hit.Some? ==> hit.value in enable && !enable[hit.value]
                            && Implied(Implications(requirements), On(enable), hit.value)
    {
      var k := 0;
      while k < |options|
        invariant k <= |options|
        invariant forall j :: 0 <= j < k && enable[options[j]] ==> Satisfied(options[j], |requirements[options[j]]|)
      {
        var o := options[k];
        assert o in options;
        var i := 0;
        while i < |requirements[o]|
          invariant i <= |requirements[o]|
          invariant enable[o] ==> Satisfied(o, i)
        {
          var r := requirements[o][i];
          if r.kind == Implies && enable[o] && !enable[r.option] {
            assert o in On(enable) && (o, r.option) in Implications(requirements);
            return Some(r.option);
          }
          i := i + 1;
        }
        k := k + 1;
      }
      forall e | e in Implications(requirements) && e.0 in On(enable) ensures e.1 in On(enable) {
        var i :| 0 <= i < |requirements[e.0]| && requirements[e.0][i].kind == Implies && requirements[e.0][i].option == e.1;
        assert e.0 in options;
        assert Satisfied(e.0, |requirements[e.0]|);
      }
      return None;
    }

    /** The first `n` requirements of an option imply nothing that is not enabled. */
    ghost predicate Satisfied(o: string, n: nat)
      requires Valid() && o in enable && n <= |requirements[o]|
      reads this
    {
      forall i :: 0 <= i < n && requirements[o][i].kind == Implies ==> enable[requirements[o][i].option]
    }

    /** imply: ends, since every restart enables an option, with the closure of what was enabled. */
    method Imply()
      requires Valid()
      modifies this`enable
      ensures Valid() && enable.Keys == old(enable.Keys)
      ensures IsClosure(Implications(requirements), old(On(enable)), On(enable))
    {
      ghost var edges, start := Implications(requirements), On(enable);
      var hit := Scan();
      while hit.Some?
        invariant Valid() && enable.Keys == old(enable.Keys)
        invariant Reached(edges, start, On(enable))
        invariant hit.None? ==> Closed(edges, On(enable))
        invariant hit.Some? ==> hit.value in enable && !enable[hit.value] && Implied(edges, On(enable), hit.value)
        decreases OffNames(enable)
      {
        ReachedMore(edges, start, On(enable), hit.value);
        Enable(hit.value);
        hit := Scan();
      }
    }

    method Enable(o: string)
      requires Valid() && o in enable && !enable[o]
      modifies this`enable
      ensures Valid() && enable.Keys == old(enable.Keys) && On(enable) == old(On(enable)) + {o}
      ensures OffNames(enable) == old(OffNames(enable)) - {o} && o in old(OffNames(enable))
    {
      OnMore(enable, o);
      enable := enable[o := true];
    }

    // ---------- Settings ----------

    /** mksetting; `ok` is false for an option that does not exist. */
    method MakeSetting(o: string, on: bool) returns (ok: bool)
      requires Valid()
      modifies this`settings
      ensures Valid() && (ok <==> o in enable)
      ensures ok ==> forall x :: Chosen(settings, x) == if x == o then Some(on) else old(Chosen(settings, x))
      ensures !ok ==> settings == old(settings)
    {
      if o !in options {
        return false;
      }
      var k := 0;
      while k < |settings|
        invariant k <= |settings| && settings == old(settings)
        invariant forall j :: 0 <= j < k ==> settings[j].option != o
      {
        if settings[k].option == o {
          var after := settings[k := Setting(o, on)];
          forall x ensures Chosen(after, x) == if x == o then Some(on) else Chosen(settings, x) {
            ChosenSet(settings, k, on, x);
          }
          settings := after;
          return true;
        }
        k := k + 1;
      }
      settings := [Setting(o, on)] + settings;
      assert settings[1..] == old(settings);
      return true;
    }

    /** The loop that sets every option as its setting says. */
    method ApplySettings()
      requires Valid()
      modifies this`enable
      ensures Valid() && enable.Keys == old(enable.Keys)
      ensures forall o :: o in enable ==>
                enable[o] == match Chosen(settings, o) case Some(on) => on case None => old(enable)[o]
    {
      var k := 0;
      while k < |settings|
        invariant k <= |settings| && enable.Keys == old(enable.Keys)
        invariant forall o :: o in enable ==>
                    enable[o] == match Chosen(settings[..k], o) case Some(on) => on case None => old(enable)[o]
      {
        ghost var now, next := settings[..k], settings[..k + 1];
        forall o
          ensures Chosen(next, o) == if o == settings[k].option then Some(settings[k].enable) else Chosen(now, o)
        {
          ChosenNext(settings, k, o);
        }
        enable := enable[settings[k].option := settings[k].enable];
        k := k + 1;
      }
      assert settings[..k] == settings;
    }

    /** The loop that disables what a setting disables. */
    method DropDisabled()
      requires Valid()
      modifies this`enable
      ensures Valid() && enable.Keys == old(enable.Keys)
      ensures forall o :: o in enable ==> enable[o] == (old(enable)[o] && Chosen(settings, o) != Some(false))
    {
      var k := 0;
      while k < |settings|
        invariant k <= |settings| && enable.Keys == old(enable.Keys)
        invariant forall o :: o in enable ==> enable[o] == (old(enable)[o] && Chosen(settings[..k], o) != Some(false))
      {
        ghost var now, next := settings[..k], settings[..k + 1];
        forall o
          ensures Chosen(next, o) == if o == settings[k].option then Some(settings[k].enable) else Chosen(now, o)
        {
          ChosenNext(settings, k, o);
        }
        ChosenNext(settings, k, settings[k].option);
        if !settings[k].enable {
          enable := enable[settings[k].option := false];
        }
        k := k + 1;
      }
      assert settings[..k] == settings;
    }

    // ---------- config and check ----------

    /** The loop over the configuration string; `ok` is false where the program gives up. */
    method ReadSettings(configstr: string) returns (ok: bool)
      requires Valid() && settings == []
      modifies this`settings
      ensures Valid()
      ensures ok <==> Parse(configstr, true).Some? && Exist(Parse(configstr, true).value, enable.Keys)
      ensures ok ==> forall o :: Chosen(settings, o) == Last(Parse(configstr, true).value, o)
    {
      var rest, first := configstr, true;
      ghost var done: seq<Setting> := [];
      assert forall more: seq<Setting> :: done + more == more;
      while rest != ""
        invariant Valid() && Exist(done, enable.Keys)
        invariant Parse(configstr, true) ==
                  match Parse(rest, first) case None => None case Some(more) => Some(done + more)
        invariant forall o :: Chosen(settings, o) == Last(done, o)
        decreases |rest|
      {
        if !Sign(rest[0]) && !first {
          return false;
        }
        var on := rest[0] != '-';
        var body := Body(rest);
        var n := NameLength(body);
        if n == 0 || n > NAME_MAX {
          return false;
        }
        var item := Setting(Fold(body[..n]), on);
        ParseNext(configstr, rest, first, done);
        ok := MakeSetting(item.option, on);
        if !ok {
          NotExist(done, item, Parse(body[n..], false), enable.Keys);
          return false;
        }
        forall o {
          LastNext(done, item, o);
        }
        done := done + [item];
        rest, first := body[n..], false;
      }
      assert done + [] == done;
      return true;
    }

    /**
      config: afterwards the enabled options are the closure of those last given with +, without
      those last given with -.
     */
    method Config(configstr: string) returns (ok: bool, ghost closure: set<string>)
      requires Valid() && settings == [] && On(enable) == {}
      modifies this`settings, this`enable
      ensures Valid() && enable.Keys == old(enable.Keys)
      ensures ok <==> Parse(configstr, true).Some? && Exist(Parse(configstr, true).value, enable.Keys)
      ensures ok ==>
                var items := Parse(configstr, true).value;
                && IsClosure(Implications(requirements), Given(items, true), closure)
                && On(enable) == closure - Given(items, false)
    {
      closure := {};
      ok := ReadSettings(configstr);
      if !ok {
        return;
      }
      ghost var items := Parse(configstr, true).value;
      forall o | o in enable ensures !enable[o] {
        assert o !in On(enable);
      }
      ApplySettings();
      OnIsGiven(enable, settings, items);
      Imply();
      closure := On(enable);
      ghost var implied := enable;
      DropDisabled();
      OnWithout(implied, enable, settings, items);
    }

    /** check, after its look at the CPU: the standard option is on, and no enabled option lacks or excludes another. */
    method Check() returns (ok: bool)
      requires Valid()
      ensures ok <==> "std" in On(enable) && forall e :: e in Relations(requirements) ==> Sound(On(enable), e)
    {
      if "std" !in options || !enable["std"] {
        return false;
      }
      var k := 0;
      while k < |options|
        invariant k <= |options|
        invariant forall j, i :: 0 <= j < k && 0 <= i < |requirements[options[j]]| ==>
                    Sound(On(enable), (options[j], requirements[options[j]][i]))
      {
        var o := options[k];
        assert o in options;
        var i := 0;
        while i < |requirements[o]|
          invariant i <= |requirements[o]|
          invariant forall h :: 0 <= h < i ==> Sound(On(enable), (o, requirements[o][h]))
        {
          var r := requirements[o][i];
          if enable[o] && ((r.kind == Requires && !enable[r.option]) || (r.kind == MutuallyExcludes && enable[r.option])) {
            assert (o, r) in Relations(requirements) && !Sound(On(enable), (o, r));
            return false;
          }
          i := i + 1;
        }
        k := k + 1;
      }
      forall e | e in Relations(requirements) ensures Sound(On(enable), e) {
        assert e.0 in options;
      }
      return true;
    }
  }

  ghost predicate Exist(items: seq<Setting>, names: set<string>) {
    forall i :: 0 <= i < |items| ==> items[i].option in names
  }

  lemma ParseNext(configstr: string, rest: string, first: bool, done: seq<Setting>)
    requires rest != "" && (Sign(rest[0]) || first)
    requires Parse(configstr, true) == match Parse(rest, first) case None => None case Some(more) => Some(done + more)
    requires 0 < NameLength(Body(rest)) <= NAME_MAX
    ensures var n := NameLength(Body(rest));
            var item := Setting(Fold(Body(rest)[..n]), rest[0] != '-');
            Parse(configstr, true) ==
            match Parse(Body(rest)[n..], false) case None => None case Some(more) => Some(done + [item] + more)
  {
    var n := NameLength(Body(rest));
    var item := Setting(Fold(Body(rest)[..n]), rest[0] != '-');
    match Parse(Body(rest)[n..], false)
    case None =>
    case Some(more) => assert done + ([item] + more) == done + [item] + more;
  }

  lemma NotExist(done: seq<Setting>, item: Setting, rest: Option<seq<Setting>>, names: set<string>)
    requires item.option !in names
    ensures rest.Some? ==> !Exist(done + [item] + rest.value, names)
  {
    if rest.Some? {
      assert (done + [item] + rest.value)[|done|] == item;
    }
  }

  lemma LastNext(done: seq<Setting>, item: Setting, o: string)
    ensures Last(done + [item], o) == if item.option == o then Some(item.enable) else Last(done, o)
  {
    assert (done + [item])[..|done|] == done;
  }

  lemma OnIsGiven(enable: map<string, bool>, settings: seq<Setting>, items: seq<Setting>)
    requires Exist(items, enable.Keys) && forall o :: Chosen(settings, o) == Last(items, o)
    requires forall o :: o in enable ==> enable[o] == (Chosen(settings, o) == Some(true))
    ensures On(enable) == Given(items, true)
  {
    forall o ensures o in On(enable) <==> o in Given(items, true) {
      GivenIsLast(items, true, o);
    }
  }

  lemma OnWithout(before: map<string, bool>, after: map<string, bool>, settings: seq<Setting>, items: seq<Setting>)
    requires after.Keys == before.Keys && forall o :: Chosen(settings, o) == Last(items, o)
    requires forall o :: o in after ==> after[o] == (before[o] && Chosen(settings, o) != Some(false))
    ensures On(after) == On(before) - Given(items, false)
  {
    forall o ensures o in On(after) <==> o in On(before) && o !in Given(items, false) {
      GivenIsLast(items, false, o);
    }
  }

  /** Given is the set of options that the items last say so of. */
  lemma GivenIsLast(items: seq<Setting>, on: bool, o: string)
    ensures o in Given(items, on) <==> Last(items, o) == Some(on)
  {
    if Last(items, o).Some? {
      var i := LastOccurs(items, o);
      assert items[i].option == o;
    }
  }

  lemma {:induction false} LastOccurs(items: seq<Setting>, o: string) returns (i: nat)
    requires Last(items, o).Some?
    ensures i < |items| && items[i].option == o
  {
    if items[|items| - 1].option == o {
      i := |items| - 1;
    } else {
      i := LastOccurs(items[..|items| - 1], o);
    }
  }

  /** What the settings, at most one an option, say of an option. */
  ghost function Chosen(settings: seq<Setting>, o: string): Option<bool> {
    if settings == [] then None
    else if settings[0].option == o then Some(settings[0].enable)
    else Chosen(settings[1..], o)
  }

  lemma {:induction false} ChosenSet(settings: seq<Setting>, k: nat, on: bool, x: string)
    requires k < |settings|
    requires forall i, j :: 0 <= i < j < |settings| ==> settings[i].option != settings[j].option
    ensures Chosen(settings[k := Setting(settings[k].option, on)], x) ==
            if x == settings[k].option then Some(on) else Chosen(settings, x)
  {
    var after := settings[k := Setting(settings[k].option, on)];
    if k > 0 {
      assert after[1..] == settings[1..][k - 1 := Setting(settings[k].option, on)];
      ChosenSet(settings[1..], k - 1, on, x);
    }
  }

  lemma {:induction false} ChosenNext(settings: seq<Setting>, k: nat, x: string)
    requires k < |settings|
    requires forall i, j :: 0 <= i < j < |settings| ==> settings[i].option != settings[j].option
    ensures Chosen(settings[..k + 1], x) ==
            if x == settings[k].option then Some(settings[k].enable) else Chosen(settings[..k], x)
    ensures Chosen(settings[..k], settings[k].option) == None
  {
    if k > 0 {
      assert settings[..k + 1][1..] == settings[1..][..k];
      assert settings[..k][1..] == settings[1..][..k - 1];
      ChosenNext(settings[1..], k - 1, x);
    }
  }

  lemma OnMore(enable: map<string, bool>, o: string)
    requires o in enable && !enable[o]
    ensures On(enable[o := true]) == On(enable) + {o}
    ensures OffNames(enable[o := true]) == OffNames(enable) - {o} && o in OffNames(enable)
  {
  }

  /** A new option is off and implies nothing. */
  lemma NewOption(enable: map<string, bool>, requirements: map<string, seq<Requirement>>, o: string)
    requires o !in enable && o !in requirements
    ensures On(enable[o := false]) == On(enable)
    ensures Implications(requirements[o := []]) == Implications(requirements)
  {
    var after := requirements[o := []];
    forall e | e in Implications(requirements) ensures e in Implications(after) {
      var i :| 0 <= i < |requirements[e.0]| && requirements[e.0][i].kind == Implies && requirements[e.0][i].option == e.1;
      assert after[e.0][i] == requirements[e.0][i];
    }
  }

  lemma NewRelations(requirements: map<string, seq<Requirement>>, o: string)
    requires o !in requirements
    ensures Relations(requirements[o := []]) == Relations(requirements)
  {
    var after := requirements[o := []];
    forall e | e in Relations(requirements) ensures e in Relations(after) {
      var i :| 0 <= i < |requirements[e.0]| && requirements[e.0][i] == e.1;
      assert after[e.0][i] == e.1;
    }
  }

  lemma RelationsMore(requirements: map<string, seq<Requirement>>, o: string, r: Requirement)
    requires o in requirements
    ensures Relations(requirements[o := [r] + requirements[o]]) == Relations(requirements) + {(o, r)}
  {
    var after := requirements[o := [r] + requirements[o]];
    forall e | e in Relations(requirements) ensures e in Relations(after) {
      var i :| 0 <= i < |requirements[e.0]| && requirements[e.0][i] == e.1;
      assert after[e.0][if e.0 == o then i + 1 else i] == e.1;
    }
    assert after[o][0] == r;
  }

  lemma ImplicationsMore(requirements: map<string, seq<Requirement>>, o: string, r: Requirement)
    requires o in requirements
    ensures Implications(requirements[o := [r] + requirements[o]]) ==
            Implications(requirements) + if r.kind == Implies then {(o, r.option)} else {}
  {
    var after := requirements[o := [r] + requirements[o]];
    forall e | e in Implications(requirements) ensures e in Implications(after) {
      var i :| 0 <= i < |requirements[e.0]| && requirements[e.0][i].kind == Implies && requirements[e.0][i].option == e.1;
      assert after[e.0][if e.0 == o then i + 1 else i] == requirements[e.0][i];
    }
    assert after[o][0] == r;
  }

  /**
    Two programs that read the same implications, in whatever order,
    and the same string, enable the same options.
   */
  method ConfigBoth(a: Configuration, b: Configuration, configstr: string) returns (ok: bool, okay: bool)
    requires a != b && a.Valid() && b.Valid() && a.settings == [] && b.settings == []
    requires On(a.enable) == {} && On(b.enable) == {} && a.enable.Keys == b.enable.Keys
    requires Implications(a.requirements) == Implications(b.requirements)
    modifies a`settings, a`enable, b`settings, b`enable
    ensures ok == okay && (ok ==> On(a.enable) == On(b.enable))
  {
    ghost var first, second;
    ok, first := a.Config(configstr);
    okay, second := b.Config(configstr);
    if ok {
      var items := Parse(configstr, true).value;
      ClosureUnique(Implications(a.requirements), Given(items, true), first, second);
    }
  }

  // ---------- The whole program ----------

  /** A line of a CONFIG file that relates two options. */
  datatype Declaration = Declaration(name: string, kind: Kind, other: string)

  /** It relates an option to another. */
  predicate Proper(d: Declaration) {
    Fold(d.name) != Fold(d.other)
  }

  ghost predicate AllProper(decls: seq<Declaration>) {
    forall i :: 0 <= i < |decls| ==> Proper(decls[i])
  }

  lemma AllProperNext(decls: seq<Declaration>, d: Declaration)
    ensures AllProper(decls + [d]) <==> AllProper(decls) && Proper(d)
  {
    assert (decls + [d])[|decls|] == d;
    if AllProper(decls + [d]) {
      forall i | 0 <= i < |decls| ensures Proper(decls[i]) {
        assert (decls + [d])[i] == decls[i];
      }
    }
  }

  ghost function Names(decls: seq<Declaration>): set<string> {
    if decls == [] then {}
    else Names(decls[..|decls| - 1]) + {Fold(decls[|decls| - 1].name), Fold(decls[|decls| - 1].other)}
  }

  ghost function Related(decls: seq<Declaration>): set<(string, Requirement)> {
    if decls == [] then {}
    else
      var d := decls[|decls| - 1];
      Related(decls[..|decls| - 1]) + {(Fold(d.name), Requirement(d.kind, Fold(d.other)))}
  }

  ghost function Edges(relations: set<(string, Requirement)>): set<(string, string)> {
    set e | e in relations && e.1.kind == Implies :: (e.0, e.1.option)
  }

  /** The declarations name no option twice in one line; the string is well-formed and names declared options. */
  ghost predicate Readable(decls: seq<Declaration>, configstr: string) {
    && AllProper(decls)
    && Parse(configstr, true).Some? && Exist(Parse(configstr, true).value, Names(decls))
  }

  /** The options that are on in the end: the closure of what was last asked for, without what was last refused. */
  ghost predicate Selected(decls: seq<Declaration>, configstr: string, on: set<string>)
    requires Parse(configstr, true).Some?
  {
    exists closure ::
      && IsClosure(Edges(Related(decls)), Given(Parse(configstr, true).value, true), closure)
      && on == closure - Given(Parse(configstr, true).value, false)
  }

  /** What reading the declarations makes. */
  ghost predicate Loaded(conf: Configuration, decls: seq<Declaration>)
    reads conf
  {
    && conf.Valid() && conf.settings == [] && On(conf.enable) == {}
    && conf.enable.Keys == Names(decls) && Relations(conf.requirements) == Related(decls)
  }

  method Fresh() returns (conf: Configuration)
    ensures fresh(conf) && Loaded(conf, [])
  {
    conf := new Configuration();
  }

  method Declare(conf: Configuration, d: Declaration, ghost decls: seq<Declaration>) returns (ok: bool)
    requires Loaded(conf, decls)
    modifies conf
    ensures ok <==> Proper(d)
    ensures conf.Valid() && (ok ==> Loaded(conf, decls + [d]))
  {
    assert (decls + [d])[..|decls|] == decls;
    ok := conf.MakeRequirement(d.name, d.kind, d.other);
  }

  /** Reads the declarations; `ok` is false for one that relates an option to itself. */
  method Load(decls: seq<Declaration>) returns (ok: bool, conf: Configuration)
    ensures fresh(conf) && conf.Valid()
    ensures ok <==> AllProper(decls)
    ensures ok ==> Loaded(conf, decls)
  {
    conf := Fresh();
    var k := 0;
    while k < |decls|
      invariant k <= |decls| && fresh(conf) && Loaded(conf, decls[..k]) && AllProper(decls[..k])
    {
      ok := Declare(conf, decls[k], decls[..k]);
      if !ok {
        return;
      }
      AllProperNext(decls[..k], decls[k]);
      Prefix(decls, k);
      k := k + 1;
    }
    assert decls[..k] == decls;
    return true, conf;
  }

  lemma Prefix(decls: seq<Declaration>, k: nat)
    requires k < |decls|
    ensures decls[..k] + [decls[k]] == decls[..k + 1]
  {
  }

  lemma EdgesAre(requirements: map<string, seq<Requirement>>)
    ensures Implications(requirements) == Edges(Relations(requirements))
  {
    forall e: (string, string) ensures e in Implications(requirements) <==> e in Edges(Relations(requirements)) {
      ImplicationsRelate(requirements, e.0, e.1);
    }
  }

  /**
    From the declarations and the configuration string to the options that are on: accepted exactly
    when both can be read, std is on, and nothing that is on lacks what it requires or has what it excludes.
   */
  method Configure(decls: seq<Declaration>, configstr: string) returns (ok: bool, conf: Configuration)
    ensures fresh(conf) && conf.Valid()
    ensures Readable(decls, configstr) ==> Selected(decls, configstr, On(conf.enable))
    ensures ok <==>
            && Readable(decls, configstr) && "std" in On(conf.enable)
            && forall e :: e in Related(decls) ==> Sound(On(conf.enable), e)
  {
    ok, conf := Load(decls);
    if !ok {
      return;
    }
    EdgesAre(conf.requirements);
    ghost var closure;
    ok, closure := conf.Config(configstr);
    if ok {
      assert Selected(decls, configstr, On(conf.enable));
      ok := conf.Check();
    }
  }
}
