// The application skeleton of library/baseapp.py: the bookkeeping the base
// application does while it constructs its components, the symbol table of
// the Rhino application and its tab-separated text form, and the DMA-request
// pins the Rhino application asks for.

module BaseApp {
  import opened Wrappers
  import opened Text

  // ---------------------------------------------------------------------
  // Address map
  // ---------------------------------------------------------------------

  /** Base address of the control/status registers on the GPMC bus. */
  const CsrBase: nat := 0x0800_0000
  /** Base address of the DMA stream windows. */
  const DmaBase: nat := 0x1000_0000
  /** Size of the address window of one DMA stream port. */
  const DmaPortRange: nat := 8192

  // ---------------------------------------------------------------------
  // Symbol table
  // ---------------------------------------------------------------------

  /** One row of a symbol table: the symbol's name, its kind, its address
      and the size of its window. */
  datatype Entry = Entry(name: string, kind: string, address: nat, size: nat)

  /** The text of one row, without its newline: the four fields separated
      by tabs, the address zero-padded to eight hex digits, the size not
      padded. */
  function EntryText(e: Entry): string
  {
    e.name + ("\t" + (e.kind + ("\t" + (("0x" + Hex08(e.address)) + ("\t" + ("0x" + Hex(e.size)))))))
  }

  /** The formatted symbol table: one newline-terminated row per entry, in
      entry order. */
  function SymtabText(symtab: seq<Entry>): string
  {
    Unlines(seq(|symtab|, i requires 0 <= i < |symtab| => EntryText(symtab[i])))
  }

  /** Formats the symbol table row by row. */
  method FormatSymtab(symtab: seq<Entry>) returns (r: string)
    ensures r == SymtabText(symtab)
  {
    r := "";
    for i := 0 to |symtab|
      invariant r == SymtabText(symtab[..i])
    {
      SymtabSnoc(symtab, i);
      r := r + EntryText(symtab[i]) + "\n";
    }
    assert symtab[..|symtab|] == symtab;
  }

  /** One more row appends its line to the text. */
  lemma SymtabSnoc(symtab: seq<Entry>, i: nat)
    requires i < |symtab|
    ensures SymtabText(symtab[..i + 1]) == SymtabText(symtab[..i]) + EntryText(symtab[i]) + "\n"
  {
    var before := seq(i, k requires 0 <= k < i => EntryText(symtab[k]));
    assert seq(i + 1, k requires 0 <= k < i + 1 => EntryText(symtab[..i + 1][k])) == before + [EntryText(symtab[i])];
    assert seq(i, k requires 0 <= k < i => EntryText(symtab[..i][k])) == before;
    UnlinesSnoc(before, EntryText(symtab[i]));
  }

  /** Reads a `0x`-prefixed hexadecimal field back; None unless it is `0x`
      followed by at least one hex digit. */
  function ParseHexField(f: string): Option<nat>
  {
    if |f| < 3 || f[..2] != "0x" then None
    else if exists i :: 2 <= i < |f| && DigitValue(f[i]) >= 16 then None
    else Some(ParseHex(f[2..]))
  }

  /** Reads one row back from its four tab-separated fields. */
  function ParseEntry(line: string): Option<Entry>
  {
    var f := Split(line, '\t');
    if |f| != 4 then None
    else
      match (ParseHexField(f[2]), ParseHexField(f[3]))
      case (Some(address), Some(size)) => Some(Entry(f[0], f[1], address, size))
      case _ => None
  }

  /** Reads rows back, in order. */
  function ParseEntries(ls: seq<string>): Option<seq<Entry>>
  {
    if ls == [] then Some([])
    else
      match (ParseEntry(ls[0]), ParseEntries(ls[1..]))
      case (Some(e), Some(rest)) => Some([e] + rest)
      case _ => None
  }

  /** Reads a formatted symbol table back: newline-terminated rows. */
  function ParseSymtab(text: string): Option<seq<Entry>>
  {
    var ls := Split(text, '\n');
    if ls[|ls| - 1] != "" then None else ParseEntries(ls[..|ls| - 1])
  }

  /** A name or kind that the text form can carry unambiguously. */
  predicate PlainField(s: string)
  {
    '\t' !in s && '\n' !in s
  }

  /** A hex field denotes the number it was formatted from. */
  lemma HexFieldOf(digits: string, n: nat)
    requires |digits| >= 1
    requires forall i :: 0 <= i < |digits| ==> DigitValue(digits[i]) < 16
    requires ParseHex(digits) == n
    ensures ParseHexField("0x" + digits) == Some(n)
    ensures '\t' !in "0x" + digits && '\n' !in "0x" + digits
  {
    var f := "0x" + digits;
    assert f[..2] == "0x";
    assert f[2..] == digits;
    assert forall i :: 2 <= i < |f| ==> f[i] == digits[i - 2];
    assert DigitValue('\t') == 16 && DigitValue('\n') == 16;
  }

  lemma JoinFour(a: string, b: string, c: string, d: string, sep: string)
    ensures Join([a, b, c, d], sep) == a + (sep + (b + (sep + (c + (sep + d)))))
  {
    var parts := [a, b, c, d];
    assert parts[1..] == [b, c, d];
    assert parts[1..][1..] == [c, d];
    assert parts[1..][1..][1..] == [d];
    assert Join([d], sep) == d;
    assert Join([c, d], sep) == c + sep + d;
    assert Join([b, c, d], sep) == b + sep + (c + sep + d);
  }

  /** Every row has exactly four tab-separated fields: the name, the kind,
      the address and the size. */
  lemma EntryFields(e: Entry)
    requires PlainField(e.name) && PlainField(e.kind)
    ensures '\n' !in EntryText(e)
    ensures Split(EntryText(e), '\t') == [e.name, e.kind, "0x" + Hex08(e.address), "0x" + Hex(e.size)]
  {
    HexRoundTrip(e.address);
    HexRoundTrip(e.size);
    var a := "0x" + Hex08(e.address);
    var z := "0x" + Hex(e.size);
    HexFieldOf(Hex08(e.address), e.address);
    HexFieldOf(Hex(e.size), e.size);
    FieldsSplit(e.name, e.kind, a, z);
  }

  lemma FieldsSplit(name: string, kind: string, a: string, z: string)
    requires PlainField(name) && PlainField(kind) && PlainField(a) && PlainField(z)
    ensures '\n' !in name + ("\t" + (kind + ("\t" + (a + ("\t" + z)))))
    ensures Split(name + ("\t" + (kind + ("\t" + (a + ("\t" + z))))), '\t') == [name, kind, a, z]
  {
    var parts := [name, kind, a, z];
    JoinFour(name, kind, a, z, "\t");
    SplitJoin(parts, '\t');
    NotInJoin(parts, "\t", '\n');
  }

  /** A row reads back as its entry: the two numeric fields denote the
      entry's address and size. */
  lemma EntryRoundTrip(e: Entry)
    requires PlainField(e.name) && PlainField(e.kind)
    ensures ParseEntry(EntryText(e)) == Some(e)
  {
    HexRoundTrip(e.address);
    HexRoundTrip(e.size);
    HexFieldOf(Hex08(e.address), e.address);
    HexFieldOf(Hex(e.size), e.size);
    EntryFields(e);
  }

  /** The symbol table's text reads back as the same entries, in order, as
      long as no name or kind holds a tab or a newline. */
  lemma SymtabRoundTrip(symtab: seq<Entry>)
    requires forall i :: 0 <= i < |symtab| ==> PlainField(symtab[i].name) && PlainField(symtab[i].kind)
    ensures ParseSymtab(SymtabText(symtab)) == Some(symtab)
  {
    var ls := seq(|symtab|, i requires 0 <= i < |symtab| => EntryText(symtab[i]));
    forall i | 0 <= i < |ls|
      ensures '\n' !in ls[i]
      ensures ParseEntry(ls[i]) == Some(symtab[i])
    {
      EntryFields(symtab[i]);
      EntryRoundTrip(symtab[i]);
    }
    SplitUnlines(ls);
    assert (ls + [""])[..|ls|] == ls;
    ParseEntriesOf(symtab, ls);
  }

  lemma {:induction false} ParseEntriesOf(symtab: seq<Entry>, ls: seq<string>)
    requires |ls| == |symtab|
    requires forall i :: 0 <= i < |ls| ==> ParseEntry(ls[i]) == Some(symtab[i])
    ensures ParseEntries(ls) == Some(symtab)
  {
    if ls != [] {
      ParseEntriesOf(symtab[1..], ls[1..]);
      assert symtab == [symtab[0]] + symtab[1..];
    }
  }

  /** The symbol table of the Rhino application: the register table, laid
      out from CsrBase, followed by the stream table, laid out from DmaBase
      in windows of DmaPortRange. Both tables are built by managers outside
      this model and are given as functions of their layout parameters. */
  function RhinoSymtab(csrSymtab: nat -> seq<Entry>, streamSymtab: (nat, nat) -> seq<Entry>): (t: seq<Entry>)
    ensures |t| == |csrSymtab(CsrBase)| + |streamSymtab(DmaBase, DmaPortRange)|
    ensures t[..|csrSymtab(CsrBase)|] == csrSymtab(CsrBase)
    ensures t[|csrSymtab(CsrBase)|..] == streamSymtab(DmaBase, DmaPortRange)
  {
    csrSymtab(CsrBase) + streamSymtab(DmaBase, DmaPortRange)
  }

  /** The Rhino symbol table's text is the register rows followed by the
      stream rows. */
  lemma RhinoSymtabText(csrSymtab: nat -> seq<Entry>, streamSymtab: (nat, nat) -> seq<Entry>)
    ensures SymtabText(RhinoSymtab(csrSymtab, streamSymtab))
         == SymtabText(csrSymtab(CsrBase)) + SymtabText(streamSymtab(DmaBase, DmaPortRange))
  {
    var a := csrSymtab(CsrBase);
    var b := streamSymtab(DmaBase, DmaPortRange);
    var la := seq(|a|, i requires 0 <= i < |a| => EntryText(a[i]));
    var lb := seq(|b|, i requires 0 <= i < |b| => EntryText(b[i]));
    var t := a + b;
    assert seq(|t|, i requires 0 <= i < |t| => EntryText(t[i])) == la + lb;
    UnlinesAppend(la, lb);
  }

  /** The two base addresses as they appear in the symbol table. */
  lemma BaseAddressTexts()
    ensures Hex08(CsrBase) == "08000000"
    ensures Hex08(DmaBase) == "10000000"
  {
    CsrBaseDigits();
    DmaBaseDigits();
  }

  lemma CsrBaseDigits()
    ensures Hex(CsrBase) == "8000000"
  {
    assert Digits(0x8, 16) == "8";
    DigitsShift(0x8, 16);
    DigitsShift(0x80, 16);
    DigitsShift(0x800, 16);
    DigitsShift(0x8000, 16);
    DigitsShift(0x80000, 16);
    DigitsShift(0x800000, 16);
  }

  lemma DmaBaseDigits()
    ensures Hex(DmaBase) == "10000000"
  {
    assert Digits(0x1, 16) == "1";
    DigitsShift(0x1, 16);
    DigitsShift(0x10, 16);
    DigitsShift(0x100, 16);
    DigitsShift(0x1000, 16);
    DigitsShift(0x10000, 16);
    DigitsShift(0x100000, 16);
    DigitsShift(0x1000000, 16);
  }

  // ---------------------------------------------------------------------
  // Pin requests of the Rhino application
  // ---------------------------------------------------------------------

  /** A request to the constraint manager for a platform resource, by name
      and optional index. */
  datatype PinRequest = PinRequest(resource: string, index: Option<nat>)

  /** The pins requested while building the Rhino application's logic: one
      DMA-request line per stream port, numbered from 0, then the GPMC bus
      and its two chip enables. */
  function FragmentRequests(streamsFrom: nat, streamsTo: nat): (rs: seq<PinRequest>)
  {
    var count := streamsFrom + streamsTo;
    seq(count, i requires 0 <= i < count => PinRequest("gpmc_dmareq_n", Some(i)))
      + [PinRequest("gpmc", None), PinRequest("gpmc_ce_n", Some(0)), PinRequest("gpmc_ce_n", Some(1))]
  }

  /** Exactly one DMA-request pin is requested per stream port: index k is
      requested, once, exactly when k is below the number of ports. */
  lemma DmaRequestPins(streamsFrom: nat, streamsTo: nat)
    ensures |FragmentRequests(streamsFrom, streamsTo)| == streamsFrom + streamsTo + 3
    ensures forall k: nat ::
      (PinRequest("gpmc_dmareq_n", Some(k)) in FragmentRequests(streamsFrom, streamsTo))
      <==> k < streamsFrom + streamsTo
    ensures forall i, j :: 0 <= i < j < |FragmentRequests(streamsFrom, streamsTo)| ==>
      FragmentRequests(streamsFrom, streamsTo)[i] != FragmentRequests(streamsFrom, streamsTo)[j]
  {
    var rs := FragmentRequests(streamsFrom, streamsTo);
    var count := streamsFrom + streamsTo;
    assert forall i :: 0 <= i < count ==> rs[i] == PinRequest("gpmc_dmareq_n", Some(i));
    assert rs[count] == PinRequest("gpmc", None);
    assert rs[count + 1] == PinRequest("gpmc_ce_n", Some(0));
    assert rs[count + 2] == PinRequest("gpmc_ce_n", Some(1));
    forall k: nat | PinRequest("gpmc_dmareq_n", Some(k)) in rs
      ensures k < count
    {
      var i :| 0 <= i < |rs| && rs[i] == PinRequest("gpmc_dmareq_n", Some(k));
      assert "gpmc" != "gpmc_dmareq_n" && "gpmc_ce_n" != "gpmc_dmareq_n";
    }
    forall k: nat | k < count
      ensures PinRequest("gpmc_dmareq_n", Some(k)) in rs
    {
      assert rs[k] == PinRequest("gpmc_dmareq_n", Some(k));
    }
    assert "gpmc" != "gpmc_dmareq_n" && "gpmc_ce_n" != "gpmc_dmareq_n" && "gpmc" != "gpmc_ce_n";
  }

  // ---------------------------------------------------------------------
  // Component bookkeeping
  // ---------------------------------------------------------------------

  /** A component description: the class to construct, an optional name
      and the keyword arguments of its constructor. */
  datatype Comp<C, V> = Comp(cls: C, name: Option<string>, params: map<string, V>)

  /** An entry of the component list: either a description, or a bare class
      that stands for an unnamed description without arguments. */
  datatype ComponentArg<C, V> = Described(comp: Comp<C, V>) | Bare(cls: C)

  function AsComp<C, V>(c: ComponentArg<C, V>): (r: Comp<C, V>)
    ensures c.Bare? ==> r == Comp(c.cls, None, map[])
    ensures c.Described? ==> r == c.comp
  {
    match c
    case Described(comp) => comp
    case Bare(cls) => Comp(cls, None, map[])
  }

  /** The name the application shows to a component under construction:
      the attribute is either absent, or present holding the description's
      name (which may be None). */
  datatype CurrentName = Absent | Present(name: Option<string>)

  /** The instance built from one description. `construct` is the class's
      constructor, which sees the class, its arguments and the current name. */
  function Instance<C, V, Inst>(construct: (C, map<string, V>, Option<string>) -> Inst, c: ComponentArg<C, V>): Inst
  {
    construct(AsComp(c).cls, AsComp(c).params, AsComp(c).name)
  }

  /** The instances built from a component list, in list order. */
  function Instances<C, V, Inst>(construct: (C, map<string, V>, Option<string>) -> Inst,
                                 cs: seq<ComponentArg<C, V>>): seq<Inst>
  {
    if cs == [] then []
    else Instances(construct, cs[..|cs| - 1]) + [Instance(construct, cs[|cs| - 1])]
  }

  /** The name map built from a component list: each named description's
      instance under its name, later descriptions overwriting earlier ones. */
  function NameMap<C, V, Inst>(construct: (C, map<string, V>, Option<string>) -> Inst,
                               cs: seq<ComponentArg<C, V>>): map<string, Inst>
  {
    if cs == [] then map[]
    else
      var c := cs[|cs| - 1];
      var m := NameMap(construct, cs[..|cs| - 1]);
      if AsComp(c).name.Some? then m[AsComp(c).name.value := Instance(construct, c)] else m
  }

  /** One instance per component, instance i built from component i. */
  lemma {:induction false} InstancesAt<C, V, Inst>(construct: (C, map<string, V>, Option<string>) -> Inst,
                                                   cs: seq<ComponentArg<C, V>>)
    ensures |Instances(construct, cs)| == |cs|
    ensures forall i :: 0 <= i < |cs| ==> Instances(construct, cs)[i] == Instance(construct, cs[i])
  {
    if cs != [] {
      var n := |cs| - 1;
      InstancesAt(construct, cs[..n]);
      assert forall i :: 0 <= i < n ==> cs[..n][i] == cs[i];
    }
  }

  /** A name is in the map exactly when some described component carries
      it; a bare class never enters the map. */
  lemma {:induction false} NameMapKeys<C, V, Inst>(construct: (C, map<string, V>, Option<string>) -> Inst,
                                                   cs: seq<ComponentArg<C, V>>, k: string)
    ensures k in NameMap(construct, cs) <==>
      exists i :: 0 <= i < |cs| && cs[i].Described? && cs[i].comp.name == Some(k)
  {
    if cs != [] {
      var n := |cs| - 1;
      NameMapKeys(construct, cs[..n], k);
      assert forall i :: 0 <= i < n ==> cs[..n][i] == cs[i];
      if k in NameMap(construct, cs) && AsComp(cs[n]).name != Some(k) {
        var i :| 0 <= i < n && cs[..n][i].Described? && cs[..n][i].comp.name == Some(k);
        assert cs[i] == cs[..n][i];
      }
    }
  }

  /** A name maps to the instance of the last component carrying it. */
  lemma {:induction false} NameMapLast<C, V, Inst>(construct: (C, map<string, V>, Option<string>) -> Inst,
                                                   cs: seq<ComponentArg<C, V>>, i: nat)
    requires i < |cs| && AsComp(cs[i]).name.Some?
    requires forall j :: i < j < |cs| ==> AsComp(cs[j]).name != AsComp(cs[i]).name
    ensures AsComp(cs[i]).name.value in NameMap(construct, cs)
    ensures NameMap(construct, cs)[AsComp(cs[i]).name.value] == Instance(construct, cs[i])
  {
    var n := |cs| - 1;
    if i < n {
      assert cs[..n][i] == cs[i];
      assert forall j :: i < j < n ==> cs[..n][j] == cs[j];
      NameMapLast(construct, cs[..n], i);
    }
  }

  /** The application base: it builds the clock and reset generator first,
      then every listed component in order, keeping every instance in
      allComponents and each named one in components under its name. */
  class GenericBaseApp<P, C, V, Inst> {
    var platformResources: P
    var components: map<string, Inst>
    var allComponents: seq<Inst>
    var crg: Inst
    var currentCompName: CurrentName

    constructor (componentList: seq<ComponentArg<C, V>>, platformResources: P,
                 crgFactory: P -> Inst, construct: (C, map<string, V>, Option<string>) -> Inst)
      ensures this.platformResources == platformResources
      ensures crg == crgFactory(platformResources)
      ensures allComponents == [crg] + Instances(construct, componentList)
      ensures components == NameMap(construct, componentList)
      ensures currentCompName == Absent
    {
      this.platformResources := platformResources;
      components := map[];
      allComponents := [];
      crg := crgFactory(platformResources);
      currentCompName := Absent;
      new;
      allComponents := allComponents + [crg];
      for i := 0 to |componentList|
        invariant allComponents == [crg] + Instances(construct, componentList[..i])
        invariant components == NameMap(construct, componentList[..i])
        invariant currentCompName == Absent
        invariant crg == crgFactory(platformResources)
        invariant this.platformResources == platformResources
      {
        var c := AsComp(componentList[i]);
        assert componentList[..i + 1][..i] == componentList[..i];
        currentCompName := Present(c.name);
        var inst := construct(c.cls, c.params, currentCompName.name);
        currentCompName := Absent;
        if c.name.Some? {
          components := components[c.name.value := inst];
        }
        allComponents := allComponents + [inst];
      }
      assert componentList[..|componentList|] == componentList;
    }
  }

  /** Every component, and the generator first: the list of all instances
      is the generator followed by one instance per listed component, built
      in list order. */
  lemma AllComponentsOrder<C, V, Inst>(construct: (C, map<string, V>, Option<string>) -> Inst,
                                       crg: Inst, cs: seq<ComponentArg<C, V>>)
    ensures |[crg] + Instances(construct, cs)| == 1 + |cs|
    ensures ([crg] + Instances(construct, cs))[0] == crg
    ensures forall i :: 0 <= i < |cs| ==> ([crg] + Instances(construct, cs))[i + 1] == Instance(construct, cs[i])
  {
    InstancesAt(construct, cs);
  }
}
