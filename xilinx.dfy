/** The Xilinx back end's text generation: the UCF constraint file written
    from the per-signal pin constraints and the platform commands, the XST
    project file listing the HDL sources, and the choice of the installed
    ISE version. Writing files, listing the installation directory and
    running the tools are not part of this model. */
module Xilinx {
  import opened Wrappers
  import opened Text

  /** Where the ISE installations live. */
  const InstallPath: string := "/opt/Xilinx"

  /** The configured version as str() renders it; the default None of the
      configuration reads "None", which no installed version is called. */
  const ConfiguredVersion: string := "None"

  /** 32- or 64-bit tools. */
  const ToolsType: nat := 32

  // ---------------------------------------------------------------------
  // Constraints
  // ---------------------------------------------------------------------

  /** The constraint kinds a signal can carry. Unsupported stands for any
      other constraint class, which the formatter does not recognise. */
  datatype Constraint =
    | Pins(identifiers: seq<string>)
    | IOStandard(name: string)
    | Drive(strength: int)
    | Misc(misc: string)
    | Unsupported(kind: string)

  /** The text of one constraint in a UCF line. None where the formatter
      returns None (an unknown kind, which the join then rejects) or fails
      (a Pins constraint without identifiers has no first identifier). */
  function FormatConstraint(c: Constraint): (r: Option<string>)
    ensures r.None? <==> c.Unsupported? || (c.Pins? && c.identifiers == [])
    ensures c.Pins? && r.Some? ==> r.value == "LOC=" + c.identifiers[0]
    ensures c.IOStandard? ==> r == Some("IOSTANDARD=" + c.name)
    ensures c.Drive? ==> r == Some("DRIVE=" + DecimalString(c.strength))
    ensures c.Drive? ==> r.Some? && |r.value| > 6 && r.value[..6] == "DRIVE=" && ParseDecimal(r.value[6..]) == c.strength
    ensures c.Misc? ==> r == Some(c.misc)
  {
    match c
    case Pins(ids) => if ids == [] then None else Some("LOC=" + ids[0])
    case IOStandard(name) => Some("IOSTANDARD=" + name)
    case Drive(strength) =>
      DecimalRoundTrip(strength);
      assert ("DRIVE=" + DecimalString(strength))[6..] == DecimalString(strength);
      Some("DRIVE=" + DecimalString(strength))
    case Misc(misc) => Some(misc)
    case Unsupported(_) => None
  }

  /** The texts of a list of constraints, in order, or None when one of them
      has no text. */
  function FormatAll(cs: seq<Constraint>): (r: Option<seq<string>>)
    ensures r.Some? <==> forall i :: 0 <= i < |cs| ==> FormatConstraint(cs[i]).Some?
    ensures r.Some? ==> |r.value| == |cs|
    ensures r.Some? ==> forall i :: 0 <= i < |cs| ==> r.value[i] == FormatConstraint(cs[i]).value
  {
    if cs == [] then Some([])
    else
      match (FormatConstraint(cs[0]), FormatAll(cs[1..]))
      case (Some(t), Some(ts)) => Some([t] + ts)
      case _ => None
  }

  // ---------------------------------------------------------------------
  // One UCF line
  // ---------------------------------------------------------------------

  /** The platform resource a signal was requested from: its name, its
      number (None when the request named none) and an optional sub-signal. */
  datatype ResName = ResName(name: string, number: Option<int>, sub: Option<string>)

  /** str() of the resource number. */
  function NumberText(n: Option<int>): string
  {
    match n
    case None => "None"
    case Some(v) => DecimalString(v)
  }

  /** The comment at the end of a UCF line: "name:number", then ".sub" when
      there is a sub-signal. */
  function ResourceText(r: ResName): string
  {
    r.name + ":" + NumberText(r.number) + (if r.sub.Some? then "." + r.sub.value else "")
  }

  /** Reads a resource comment back: the name up to the first colon, then
      the number, then the sub-signal after the first dot if there is one. */
  function ParseResource(t: string): ResName
  {
    var k := IndexOf(t, ':');
    var (number, sub) := ParseNumberSub(if k < |t| then t[k + 1..] else "");
    ResName(t[..k], number, sub)
  }

  function ParseNumberSub(rest: string): (Option<int>, Option<string>)
  {
    var j := IndexOf(rest, '.');
    var number := rest[..j];
    (if number == "None" then None else Some(ParseDecimal(number)),
     if j < |rest| then Some(rest[j + 1..]) else None)
  }

  lemma NumberSubRoundTrip(number: Option<int>, sub: Option<string>)
    ensures ParseNumberSub(NumberText(number) + (if sub.Some? then "." + sub.value else ""))
         == (number, sub)
  {
    var num := NumberText(number);
    var rest := num + (if sub.Some? then "." + sub.value else "");
    assert '.' !in num by {
      if number.Some? {
        NotInDecimal(number.value, '.');
      } else {
        assert num == ['N', 'o', 'n', 'e'];
      }
    }
    var j := IndexOf(rest, '.');
    if sub.Some? {
      assert rest == num + ['.'] + sub.value;
      IndexOfAt(num, '.', sub.value);
      assert j == |num| && rest[..j] == num && rest[j + 1..] == sub.value;
    } else {
      assert rest == num;
      IndexOfNone(num, '.');
      assert j == |rest| && rest[..j] == num;
    }
    if number.Some? {
      DecimalRoundTrip(number.value);
      NotInDecimal(number.value, 'N');
      assert num != "None" by {
        assert "None"[0] == 'N';
      }
    }
  }

  /** The resource comment determines the resource when its name holds no
      colon: the number is rendered in decimal and the sub-signal follows a
      dot only when there is one. */
  lemma ResourceRoundTrip(r: ResName)
    requires ':' !in r.name
    ensures ParseResource(ResourceText(r)) == r
  {
    var rest := NumberText(r.number) + (if r.sub.Some? then "." + r.sub.value else "");
    assert ResourceText(r) == r.name + [':'] + rest;
    IndexOfAt(r.name, ':', rest);
    NumberSubRoundTrip(r.number, r.sub);
  }

  /** The UCF line for one pin of a signal, given the texts of all its
      constraints (the pin location first). */
  function RenderUcf(signame: string, constraintTexts: seq<string>, resource: string): string
  {
    "NET \"" + (signame + ("\" " + (Join(constraintTexts, " | ") + ("; # " + (resource + "\n")))))
  }

  datatype UcfError =
    | NoPins(sig: SignalId)   // a signal constrained to an empty pin list
    | BadConstraint           // a constraint the formatter cannot render

  /** The UCF line of signal `signame` on pin `pin`: the pin location, then
      the other constraints, then the resource comment. */
  function FormatUcf(signame: string, pin: string, others: seq<Constraint>, resname: ResName): (r: Result<string, UcfError>)
    ensures r.Ok? <==> FormatAll(others).Some?
    ensures r.Err? ==> r.error == BadConstraint
    ensures r.Ok? ==> r.value == RenderUcf(signame, ["LOC=" + pin] + FormatAll(others).value, ResourceText(resname))
  {
    var all := [Pins([pin])] + others;
    assert all[1..] == others;
    match FormatAll(all)
    case None => Err(BadConstraint)
    case Some(texts) =>
      assert texts == ["LOC=" + pin] + FormatAll(others).value;
      Ok(RenderUcf(signame, texts, ResourceText(resname)))
  }

  /** What a UCF line says: the net, its constraint texts in order, and the
      resource comment. */
  datatype UcfLine = UcfLine(signame: string, constraints: seq<string>, resource: string)

  /** Splits a constraint list at its " | " separators. */
  function SplitBars(s: string): seq<string>
    decreases |s|
  {
    var k := IndexOf(s, '|');
    if k == |s| then [s]
    else [s[..if k > 0 then k - 1 else 0]] + SplitBars(s[if k + 2 <= |s| then k + 2 else |s|..])
  }

  /** A piece without a bar is one constraint. */
  lemma SplitBarsNone(a: string)
    requires '|' !in a
    ensures SplitBars(a) == [a]
  {
    IndexOfNone(a, '|');
  }

  /** A bar-free piece, " | ", then the rest: the piece, then the rest's
      constraints. */
  lemma SplitBarsCons(a: string, b: string)
    requires '|' !in a
    ensures SplitBars(a + " | " + b) == [a] + SplitBars(b)
  {
    var s := a + " | " + b;
    assert s == (a + " ") + ['|'] + (" " + b);
    assert '|' !in a + " " by {
      assert forall i :: 0 <= i < |a| ==> (a + " ")[i] == a[i];
    }
    IndexOfAt(a + " ", '|', " " + b);
    assert s[..|a|] == a;
    assert s[|a| + 3..] == b;
  }

  lemma {:induction false} SplitBarsJoin(ts: seq<string>)
    requires |ts| >= 1
    requires forall i :: 0 <= i < |ts| ==> '|' !in ts[i]
    ensures SplitBars(Join(ts, " | ")) == ts
  {
    if |ts| == 1 {
      SplitBarsNone(ts[0]);
    } else {
      SplitBarsCons(ts[0], Join(ts[1..], " | "));
      SplitBarsJoin(ts[1..]);
      assert ts == [ts[0]] + ts[1..];
    }
  }

  /** Reads a UCF line back: `NET "name" c1 | c2 | ...; # resource` and a
      newline. */
  function ParseUcfLine(line: string): Option<UcfLine>
  {
    if |line| < 5 || line[..5] != "NET \"" then None else ParseNet(line[5..])
  }

  /** Reads the part after `NET "`: the name up to the closing quote, a
      space, then the constraints and the comment. */
  function ParseNet(rest: string): Option<UcfLine>
  {
    var k := IndexOf(rest, '"');
    if k + 1 >= |rest| || rest[k + 1] != ' ' then None
    else
      match ParseBody(rest[k + 2..])
      case None => None
      case Some((constraints, resource)) => Some(UcfLine(rest[..k], constraints, resource))
  }

  /** Reads the constraints up to the first semicolon, then the comment. */
  function ParseBody(body: string): Option<(seq<string>, string)>
  {
    var m := IndexOf(body, ';');
    match ParseComment(body[m..])
    case None => None
    case Some(resource) => Some((SplitBars(body[..m]), resource))
  }

  /** Reads `; # `, the resource comment and the final newline. */
  function ParseComment(tail: string): Option<string>
  {
    if |tail| < 5 || tail[..4] != "; # " || tail[|tail| - 1] != '\n' then None
    else Some(tail[4..|tail| - 1])
  }

  lemma ParseCommentOf(resource: string)
    ensures ParseComment("; # " + (resource + "\n")) == Some(resource)
  {
    var tail := "; # " + (resource + "\n");
    assert tail[..4] == "; # ";
    assert tail[4..|tail| - 1] == resource;
  }

  lemma ParseBodyOf(texts: seq<string>, resource: string)
    requires |texts| >= 1
    requires forall i :: 0 <= i < |texts| ==> '|' !in texts[i] && ';' !in texts[i]
    ensures ParseBody(Join(texts, " | ") + ("; # " + (resource + "\n"))) == Some((texts, resource))
  {
    var joined := Join(texts, " | ");
    NotInJoin(texts, " | ", ';');
    SplitBarsJoin(texts);
    ParseCommentOf(resource);
    BodySplit(joined, "; # " + (resource + "\n"));
  }

  lemma BodySplit(joined: string, tail: string)
    requires ';' !in joined
    requires |tail| > 0 && tail[0] == ';'
    ensures IndexOf(joined + tail, ';') == |joined|
    ensures (joined + tail)[..|joined|] == joined
    ensures (joined + tail)[|joined|..] == tail
  {
    assert joined + tail == joined + [';'] + tail[1..];
    IndexOfAt(joined, ';', tail[1..]);
  }

  lemma ParseNetOf(signame: string, body: string)
    requires '"' !in signame
    ensures ParseNet(signame + ("\" " + body)) == match ParseBody(body)
      case None => None
      case Some((constraints, resource)) => Some(UcfLine(signame, constraints, resource))
  {
    var rest := signame + ("\" " + body);
    assert rest == signame + ['"'] + (" " + body);
    IndexOfAt(signame, '"', " " + body);
    assert rest[|signame| + 2..] == body;
  }

  /** A rendered UCF line can be read back when the net name holds no quote
      and no constraint text holds a bar or a semicolon; the resource comment
      runs to the end of the line whatever it holds. */
  lemma UcfLineRoundTrip(signame: string, texts: seq<string>, resource: string)
    requires '"' !in signame
    requires |texts| >= 1
    requires forall i :: 0 <= i < |texts| ==> '|' !in texts[i] && ';' !in texts[i]
    ensures ParseUcfLine(RenderUcf(signame, texts, resource)) == Some(UcfLine(signame, texts, resource))
  {
    var body := Join(texts, " | ") + ("; # " + (resource + "\n"));
    var line := RenderUcf(signame, texts, resource);
    assert line == "NET \"" + (signame + ("\" " + body));
    assert line[..5] == "NET \"";
    assert line[5..] == signame + ("\" " + body);
    ParseBodyOf(texts, resource);
    ParseNetOf(signame, body);
  }

  // ---------------------------------------------------------------------
  // The UCF file
  // ---------------------------------------------------------------------

  /** A signal of the design, as the namespace of the generated HDL knows it. */
  type SignalId = nat

  /** One constrained signal: its pins (one per bit), the other constraints
      and the resource it came from. */
  datatype SigConstraint = SigConstraint(sig: SignalId, pins: seq<string>, others: seq<Constraint>, res: ResName)

  /** A platform command: a text template and the signals its fields name. */
  datatype PlatformCommand = PlatformCommand(template: string, args: map<string, SignalId>)

  /** The net name of pin j of a signal named `base` that has `count` pins:
      indexed as base(j) when there are several pins, bare otherwise. */
  function LineName(base: string, count: nat, j: nat): string
  {
    if count > 1 then base + "(" + DecimalString(j) + ")" else base
  }

  /** The UCF lines of one constrained signal, one per pin. */
  function SignalLines(names: SignalId -> string, s: SigConstraint): Result<seq<string>, UcfError>
  {
    if |s.pins| == 0 then Err(NoPins(s.sig))
    else
      match FormatAll(s.others)
      case None => Err(BadConstraint)
      case Some(texts) =>
        Ok(seq(|s.pins|, j requires 0 <= j < |s.pins| =>
          RenderUcf(LineName(names(s.sig), |s.pins|, j), ["LOC=" + s.pins[j]] + texts, ResourceText(s.res))))
  }

  /** The UCF lines of all constrained signals, signal after signal, or the
      error of the first signal that has none. */
  function NetLines(names: SignalId -> string, sigs: seq<SigConstraint>): Result<seq<string>, UcfError>
  {
    if sigs == [] then Ok([])
    else
      match NetLines(names, sigs[..|sigs| - 1])
      case Err(e) => Err(e)
      case Ok(ls) =>
        match SignalLines(names, sigs[|sigs| - 1])
        case Err(e) => Err(e)
        case Ok(more) => Ok(ls + more)
  }

  /** The names that fill the fields of a platform command's template. */
  function NameDict(names: SignalId -> string, args: map<string, SignalId>): map<string, string>
  {
    map k | k in args :: names(args[k])
  }

  /** The texts of the platform commands, in order; `render` fills a
      template's named fields. */
  function CommandTexts(names: SignalId -> string, render: (string, map<string, string>) -> string,
                        cmds: seq<PlatformCommand>): seq<string>
  {
    seq(|cmds|, i requires 0 <= i < |cmds| => render(cmds[i].template, NameDict(names, cmds[i].args)))
  }

  /** The UCF file: all NET lines first, then the platform commands. */
  function UcfText(names: SignalId -> string, render: (string, map<string, string>) -> string,
                   sigs: seq<SigConstraint>, cmds: seq<PlatformCommand>): Result<string, UcfError>
  {
    match NetLines(names, sigs)
    case Err(e) => Err(e)
    case Ok(ls) => Ok(Concat(ls) + Concat(CommandTexts(names, render, cmds)))
  }

  lemma {:induction false} NetLinesStopAtError(names: SignalId -> string, sigs: seq<SigConstraint>, n: nat)
    requires n <= |sigs|
    requires NetLines(names, sigs[..n]).Err?
    ensures NetLines(names, sigs) == NetLines(names, sigs[..n])
    decreases |sigs| - n
  {
    if n < |sigs| {
      assert sigs[..n + 1][..n] == sigs[..n];
      NetLinesStopAtError(names, sigs, n + 1);
    } else {
      assert sigs[..n] == sigs;
    }
  }

  /** The UCF text of one constrained signal, as its lines one after another. */
  function SignalText(names: SignalId -> string, s: SigConstraint): Result<string, UcfError>
  {
    match SignalLines(names, s)
    case Err(e) => Err(e)
    case Ok(ls) => Ok(Concat(ls))
  }

  /** Formats the lines of one constrained signal: one per pin, the net
      indexed by pin number when there are several pins. */
  method FormatSignal(names: SignalId -> string, s: SigConstraint) returns (r: Result<string, UcfError>)
    ensures r == SignalText(names, s)
  {
    if |s.pins| > 1 {
      r := FormatIndexed(names, s);
    } else if |s.pins| == 1 {
      SignalLinesShape(names, s);
      var line := FormatUcf(names(s.sig), s.pins[0], s.others, s.res);
      if line.Err? {
        assert SignalText(names, s) == Err(BadConstraint);
        return Err(line.error);
      }
      assert SignalLines(names, s).value == [line.value];
      assert [line.value][1..] == [];
      assert Concat([line.value]) == line.value;
      assert SignalText(names, s) == Ok(Concat([line.value]));
      r := Ok(line.value);
    } else {
      assert SignalText(names, s) == Err(NoPins(s.sig));
      r := Err(NoPins(s.sig));
    }
  }

  /** The lines of a signal with several pins: pin j on net `name(j)`. */
  method FormatIndexed(names: SignalId -> string, s: SigConstraint) returns (r: Result<string, UcfError>)
    requires |s.pins| > 1
    ensures r == SignalText(names, s)
  {
    SignalLinesShape(names, s);
    ghost var ls: seq<string> := if FormatAll(s.others).Some? then SignalLines(names, s).value else [];
    var text := "";
    for j := 0 to |s.pins|
      invariant j > 0 ==> FormatAll(s.others).Some? && text == Concat(ls[..j])
      invariant j == 0 ==> text == ""
    {
      var line := FormatUcf(names(s.sig) + "(" + DecimalString(j) + ")", s.pins[j], s.others, s.res);
      IndexedLine(names, s, j);
      if line.Err? {
        return Err(line.error);
      }
      ConcatPrefix(ls, j);
      text := text + line.value;
    }
    assert ls[..|s.pins|] == ls;
    r := Ok(text);
  }

  /** Line j of a signal with several pins is the FormatUcf line of net
      base(j) on pin j; when that fails, the signal has no lines. */
  lemma IndexedLine(names: SignalId -> string, s: SigConstraint, j: nat)
    requires |s.pins| > 1 && j < |s.pins|
    ensures var line := FormatUcf(names(s.sig) + "(" + DecimalString(j) + ")", s.pins[j], s.others, s.res);
      && (line.Err? ==> line.error == BadConstraint && SignalText(names, s) == Err(BadConstraint))
      && (line.Ok? ==> SignalLines(names, s).Ok? && SignalLines(names, s).value[j] == line.value)
  {
    SignalLinesShape(names, s);
  }

  /** A signal with pins has lines exactly when its other constraints all
      format, and then line j is the FormatUcf line of pin j. */
  lemma SignalLinesShape(names: SignalId -> string, s: SigConstraint)
    requires |s.pins| > 0
    ensures SignalLines(names, s).Ok? <==> FormatAll(s.others).Some?
    ensures SignalLines(names, s).Err? ==> SignalLines(names, s).error == BadConstraint
    ensures SignalLines(names, s).Ok? ==>
      && |SignalLines(names, s).value| == |s.pins|
      && forall j :: 0 <= j < |s.pins| ==>
           SignalLines(names, s).value[j]
           == FormatUcf(LineName(names(s.sig), |s.pins|, j), s.pins[j], s.others, s.res).value
  {
  }

  /** Builds the UCF text: the NET lines of each constrained signal in
      order, then the platform commands in order. */
  method BuildUcf(names: SignalId -> string, render: (string, map<string, string>) -> string,
                  sigConstraints: seq<SigConstraint>, platformCommands: seq<PlatformCommand>)
    returns (r: Result<string, UcfError>)
    ensures r == UcfText(names, render, sigConstraints, platformCommands)
  {
    var text := "";
    ghost var done: seq<string> := [];
    for i := 0 to |sigConstraints|
      invariant NetLines(names, sigConstraints[..i]) == Ok(done)
      invariant text == Concat(done)
    {
      var s := sigConstraints[i];
      var part := FormatSignal(names, s);
      NetLinesSnoc(names, sigConstraints, i);
      if part.Err? {
        NetLinesStopAtError(names, sigConstraints, i + 1);
        return Err(part.error);
      }
      ConcatAppend(done, SignalLines(names, s).value);
      done := done + SignalLines(names, s).value;
      text := text + part.value;
    }
    assert sigConstraints[..|sigConstraints|] == sigConstraints;
    var commands := "";
    for k := 0 to |platformCommands|
      invariant commands == Concat(CommandTexts(names, render, platformCommands[..k]))
    {
      var cmd := platformCommands[k];
      var nameDict := map key | key in cmd.args :: names(cmd.args[key]);
      CommandTextsSnoc(names, render, platformCommands, k);
      assert nameDict == NameDict(names, cmd.args);
      commands := commands + render(cmd.template, nameDict);
    }
    assert platformCommands[..|platformCommands|] == platformCommands;
    r := Ok(text + commands);
  }

  /** One more signal: its lines follow those of the signals before it, and
      its error, if it has one, is the section's. */
  lemma NetLinesSnoc(names: SignalId -> string, sigs: seq<SigConstraint>, i: nat)
    requires i < |sigs| && NetLines(names, sigs[..i]).Ok?
    ensures SignalText(names, sigs[i]).Err? ==>
      NetLines(names, sigs[..i + 1]) == Err(SignalText(names, sigs[i]).error)
    ensures SignalText(names, sigs[i]).Ok? ==>
      && SignalLines(names, sigs[i]).Ok?
      && SignalText(names, sigs[i]).value == Concat(SignalLines(names, sigs[i]).value)
      && NetLines(names, sigs[..i + 1]) == Ok(NetLines(names, sigs[..i]).value + SignalLines(names, sigs[i]).value)
  {
    assert sigs[..i + 1][..i] == sigs[..i];
  }

  /** One more platform command appends its text. */
  lemma CommandTextsSnoc(names: SignalId -> string, render: (string, map<string, string>) -> string,
                         cmds: seq<PlatformCommand>, k: nat)
    requires k < |cmds|
    ensures Concat(CommandTexts(names, render, cmds[..k + 1]))
         == Concat(CommandTexts(names, render, cmds[..k])) + render(cmds[k].template, NameDict(names, cmds[k].args))
  {
    var t := render(cmds[k].template, NameDict(names, cmds[k].args));
    assert CommandTexts(names, render, cmds[..k + 1]) == CommandTexts(names, render, cmds[..k]) + [t];
    ConcatSnoc(CommandTexts(names, render, cmds[..k]), t);
  }

  /** A signal's pin names and constraint texts that a UCF line can carry
      unambiguously. */
  ghost predicate Readable(names: SignalId -> string, s: SigConstraint)
  {
    && '"' !in names(s.sig)
    && (forall j :: 0 <= j < |s.pins| ==> '|' !in s.pins[j] && ';' !in s.pins[j])
    && (forall i :: 0 <= i < |s.others| ==>
          FormatConstraint(s.others[i]).Some? ==>
            '|' !in FormatConstraint(s.others[i]).value && ';' !in FormatConstraint(s.others[i]).value)
  }

  /** A constrained signal gives one line per pin, in pin order: line j names
      the net base(j) when there are several pins and the bare net when there
      is one, places it at pin j, and carries the other constraints in their
      order and the resource comment. It fails exactly when the pin list is
      empty or a constraint cannot be rendered. */
  lemma SignalLinesRead(names: SignalId -> string, s: SigConstraint)
    requires Readable(names, s)
    ensures SignalLines(names, s).Ok? <==> |s.pins| > 0 && forall i :: 0 <= i < |s.others| ==> FormatConstraint(s.others[i]).Some?
    ensures SignalLines(names, s).Ok? ==>
      var ls := SignalLines(names, s).value;
      && |ls| == |s.pins|
      && forall j :: 0 <= j < |s.pins| ==>
           ParseUcfLine(ls[j]) == Some(UcfLine(
             if |s.pins| > 1 then names(s.sig) + "(" + DecimalString(j) + ")" else names(s.sig),
             ["LOC=" + s.pins[j]] + FormatAll(s.others).value,
             ResourceText(s.res)))
  {
    if |s.pins| > 0 {
      SignalLinesShape(names, s);
    }
    if SignalLines(names, s).Ok? {
      var texts := FormatAll(s.others).value;
      var ls := SignalLines(names, s).value;
      forall j | 0 <= j < |s.pins|
        ensures ParseUcfLine(ls[j]) == Some(UcfLine(LineName(names(s.sig), |s.pins|, j),
                                                    ["LOC=" + s.pins[j]] + texts, ResourceText(s.res)))
      {
        var all := ["LOC=" + s.pins[j]] + texts;
        assert "LOC=" == ['L', 'O', 'C', '='];
        assert forall i :: 0 <= i < |all| ==> '|' !in all[i] && ';' !in all[i] by {
          forall i | 0 <= i < |all|
            ensures '|' !in all[i] && ';' !in all[i]
          {
            if i > 0 {
              assert all[i] == FormatConstraint(s.others[i - 1]).value;
            }
          }
        }
        assert '"' !in LineName(names(s.sig), |s.pins|, j) by {
          if |s.pins| > 1 {
            var d := DecimalString(j);
            assert forall i :: 0 <= i < |d| ==> d[i] == '-' || DigitValue(d[i]) < 10;
            assert DigitValue('"') == 16;
          }
        }
        UcfLineRoundTrip(LineName(names(s.sig), |s.pins|, j), all, ResourceText(s.res));
      }
    }
  }

  /** The number of NET lines of a list of signals: one per pin. */
  function PinCount(sigs: seq<SigConstraint>): nat
  {
    if sigs == [] then 0 else PinCount(sigs[..|sigs| - 1]) + |sigs[|sigs| - 1].pins|
  }

  /** The NET section exists exactly when every signal has lines. */
  lemma {:induction false} NetLinesOk(names: SignalId -> string, sigs: seq<SigConstraint>)
    ensures NetLines(names, sigs).Ok? <==> forall i :: 0 <= i < |sigs| ==> SignalLines(names, sigs[i]).Ok?
  {
    if sigs != [] {
      var n := |sigs| - 1;
      NetLinesOk(names, sigs[..n]);
      NetLinesLast(names, sigs);
      assert forall i :: 0 <= i < n ==> sigs[..n][i] == sigs[i];
    }
  }

  /** The NET section exists exactly when that of all signals but the last
      does and the last signal has lines. */
  lemma NetLinesLast(names: SignalId -> string, sigs: seq<SigConstraint>)
    requires sigs != []
    ensures NetLines(names, sigs).Ok?
        <==> NetLines(names, sigs[..|sigs| - 1]).Ok? && SignalLines(names, sigs[|sigs| - 1]).Ok?
  {
  }

  /** The NET section has one line per pin of every signal. */
  lemma {:induction false} NetLinesLength(names: SignalId -> string, sigs: seq<SigConstraint>)
    requires NetLines(names, sigs).Ok?
    ensures |NetLines(names, sigs).value| == PinCount(sigs)
  {
    if sigs != [] {
      var n := |sigs| - 1;
      NetLinesLength(names, sigs[..n]);
      SignalLinesShape(names, sigs[n]);
    }
  }

  /** The NET section is the signals' lines in signal order: signal i's
      lines start right after the lines of the signals before it. */
  lemma {:induction false} NetLinesInOrder(names: SignalId -> string, sigs: seq<SigConstraint>, i: nat)
    requires NetLines(names, sigs).Ok?
    requires i < |sigs|
    ensures SignalLines(names, sigs[i]).Ok?
    ensures PinCount(sigs[..i]) + |sigs[i].pins| <= |NetLines(names, sigs).value|
    ensures NetLines(names, sigs).value[PinCount(sigs[..i])..PinCount(sigs[..i]) + |sigs[i].pins|]
            == SignalLines(names, sigs[i]).value
  {
    var n := |sigs| - 1;
    var prefix := sigs[..n];
    var before := NetLines(names, prefix).value;
    var mine := SignalLines(names, sigs[n]).value;
    assert NetLines(names, sigs).value == before + mine;
    if i < n {
      NetLinesInOrder(names, prefix, i);
      assert prefix[i] == sigs[i];
      assert prefix[..i] == sigs[..i];
      SliceLeft(before, mine, PinCount(sigs[..i]), PinCount(sigs[..i]) + |sigs[i].pins|);
    } else {
      SignalLinesShape(names, sigs[n]);
      NetLinesLength(names, prefix);
      assert sigs[..i] == prefix;
      SliceRight(before, mine);
    }
  }

  /** A slice within a is the same slice of a + b. */
  lemma SliceLeft(a: seq<string>, b: seq<string>, lo: nat, hi: nat)
    requires lo <= hi <= |a|
    ensures (a + b)[lo..hi] == a[lo..hi]
  {
  }

  /** b is the slice of a + b after a. */
  lemma SliceRight(a: seq<string>, b: seq<string>)
    ensures (a + b)[|a|..|a| + |b|] == b
  {
  }

  /** An HDL source: its language ("verilog" or "vhdl") and its path. */
  datatype Source = Source(kind: string, path: string)

  /** The project-file line of one source, without its newline. */
  function ProjectLine(s: Source): string
  {
    s.kind + " work " + s.path
  }

  /** The project file: one newline-terminated line per source, in order. */
  function ProjectText(sources: seq<Source>): string
  {
    Unlines(seq(|sources|, i requires 0 <= i < |sources| => ProjectLine(sources[i])))
  }

  /** Builds the project file line by line. */
  method BuildProject(sources: seq<Source>) returns (prjContents: string)
    ensures prjContents == ProjectText(sources)
  {
    prjContents := "";
    for i := 0 to |sources|
      invariant prjContents == ProjectText(sources[..i])
    {
      var s := sources[i];
      ghost var before := seq(i, k requires 0 <= k < i => ProjectLine(sources[k]));
      assert seq(i + 1, k requires 0 <= k < i + 1 => ProjectLine(sources[..i + 1][k])) == before + [ProjectLine(s)];
      assert seq(i, k requires 0 <= k < i => ProjectLine(sources[..i][k])) == before;
      UnlinesSnoc(before, ProjectLine(s));
      prjContents := prjContents + s.kind + " work " + s.path + "\n";
    }
    assert sources[..|sources|] == sources;
  }

  /** Reads project-file lines back: each must be `kind work path`. */
  function ParseProjectLines(ls: seq<string>): Option<seq<Source>>
  {
    if ls == [] then Some([])
    else
      var f := Split(ls[0], ' ');
      if |f| != 3 || f[1] != "work" then None
      else
        match ParseProjectLines(ls[1..])
        case None => None
        case Some(rest) => Some([Source(f[0], f[2])] + rest)
  }

  /** Reads a project file back: newline-terminated lines. */
  function ParseProject(text: string): Option<seq<Source>>
  {
    var ls := Split(text, '\n');
    if ls[|ls| - 1] != "" then None else ParseProjectLines(ls[..|ls| - 1])
  }

  /** The project file lists every source once, in order, as long as no
      language or path holds a space or a newline. */
  lemma ProjectRoundTrip(sources: seq<Source>)
    requires forall i :: 0 <= i < |sources| ==>
      && ' ' !in sources[i].kind && '\n' !in sources[i].kind
      && ' ' !in sources[i].path && '\n' !in sources[i].path
    ensures ParseProject(ProjectText(sources)) == Some(sources)
  {
    var ls := seq(|sources|, i requires 0 <= i < |sources| => ProjectLine(sources[i]));
    forall i | 0 <= i < |ls|
      ensures '\n' !in ls[i]
      ensures Split(ls[i], ' ') == [sources[i].kind, "work", sources[i].path]
    {
      var s := sources[i];
      var parts := [s.kind, "work", s.path];
      assert parts[1..] == ["work", s.path];
      assert parts[1..][1..] == [s.path];
      assert Join(parts[1..][1..], " ") == s.path;
      assert Join(parts[1..], " ") == "work" + " " + s.path;
      assert Join(parts, " ") == s.kind + " " + ("work" + " " + s.path);
      assert ls[i] == Join(parts, [' ']);
      SplitJoin(parts, ' ');
      NotInJoin(parts, " ", '\n');
    }
    SplitUnlines(ls);
    assert (ls + [""])[..|ls|] == ls;
    ParseLinesOf(sources, ls);
  }

  lemma {:induction false} ParseLinesOf(sources: seq<Source>, ls: seq<string>)
    requires |ls| == |sources|
    requires forall i :: 0 <= i < |ls| ==> Split(ls[i], ' ') == [sources[i].kind, "work", sources[i].path]
    ensures ParseProjectLines(ls) == Some(sources)
  {
    if ls != [] {
      ParseLinesOf(sources[1..], ls[1..]);
      assert sources == [sources[0]] + sources[1..];
    }
  }

  // ---------------------------------------------------------------------
  // Tool version
  // ---------------------------------------------------------------------

  datatype VersionError = NoVersionInstalled   // max() of an empty list

  /** The ISE version to use: the configured one when it is installed (and,
      the choice being written `v in vers and v or max(vers)`, not empty),
      otherwise the greatest installed one in string order. */
  function ChooseVersion(configured: string, vers: seq<string>): (r: Result<string, VersionError>)
    ensures r.Ok? <==> |vers| > 0
    ensures r.Ok? ==> r.value in vers
    ensures configured in vers && configured != "" ==> r == Ok(configured)
    ensures r.Ok? && r.value != configured ==> forall i :: 0 <= i < |vers| ==> LexLe(vers[i], r.value)
  {
    if configured in vers && configured != "" then Ok(configured)
    else if |vers| == 0 then Err(NoVersionInstalled)
    else Ok(MaxOf(vers))
  }

  /** With the shipped configuration (no version configured), the greatest
      installed version in string order is chosen: str(None) is "None",
      which is never the name of an installed version since the installation
      listing keeps only names that parse as decimal numbers. */
  lemma DefaultVersionLatest(vers: seq<string>)
    requires |vers| > 0 && ConfiguredVersion !in vers
    ensures ChooseVersion(ConfiguredVersion, vers) == Ok(MaxOf(vers))
  {
  }

  /** The order is that of strings, not of numbers: with 9.2 and 14.7 both
      installed, 9.2 is chosen. */
  lemma VersionsCompareAsStrings()
    ensures ChooseVersion(ConfiguredVersion, ["14.7", "9.2"]) == Ok("9.2")
  {
    assert !LexLe("9.2", "14.7");
  }

  /** The settings script of the chosen version: the installation path, the
      version directory, then the settings script for 32-bit tools. */
  function SettingsFile(version: string): (r: string)
    ensures |r| == |InstallPath| + 1 + |version| + 21
    ensures r[..|InstallPath| + 1] == "/opt/Xilinx/"
    ensures r[|InstallPath| + 1..|InstallPath| + 1 + |version|] == version
    ensures r[|InstallPath| + 1 + |version|..] == "/ISE_DS/settings32.sh"
  {
    InstallPath + "/" + version + "/ISE_DS/settings" + DecimalString(ToolsType) + ".sh"
  }
}
