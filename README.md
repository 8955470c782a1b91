# rhino-gateware core, modelled in Dafny

This project models the text generation and hardware wiring at the centre of
rhino-gateware, a Migen-based gateware library for the RHINO FPGA board. It
covers four parts:

- **The Xilinx back end** (`xilinx.dfy`, module `Xilinx`):
  - the UCF constraint file: one `NET "name" LOC=pin | ...; # resource` line
    per pin of every constrained signal, then the platform commands;
  - the XST project file, with one `kind work path` line per HDL source;
  - the choice of the installed ISE version and the path of its settings script.
- **The base application** (`baseapp.dfy`, module `BaseApp`):
  - the bookkeeping of `GenericBaseApp.__init__`, as a class whose
    constructor fills the component list and the name map;
  - the tab-separated symbol table text;
  - the RHINO symbol table, made of the CSR part at `0x08000000` and the DMA
    part at `0x10000000`, with 8192-byte ports;
  - the `gpmc_dmareq_n` pins requested per stream.
- **The serializer and deserializer routing of the TI data converters**
  (`ti_serdes.dfy`, module `TiSerdes`):
  - which sample bit drives which input of the 4:1 and 8:1 OSERDES2
    serializers, on each data lane and on the frame lane;
  - which IDDR2 output captures which bit of the ADC's samples.
- **The TI DAC actors** (`ti_data.dfy`, module `TiData`):
  - the register bank and the sample layouts;
  - the clocked logic of the single-rate and the double-rate DAC. Each is a
    class whose `Step` method performs one clock edge: frame divider,
    frame-pulse latch, test-pattern multiplexer, transmit enable, frame word
    and the one-cycle-late Q copy.

Shared pieces:

- `text.dfy` (module `Text`) models the Python string operations the core
  relies on: `str()` of an integer, `{:x}` and `{:08x}`, `join`, `split`,
  and `max` over strings.
- `wrappers.dfy` holds the `Option` and `Result` types, which stand for
  Python's `None` and for the exceptions.

The UCF line, the resource comment, the project file, the symbol table
and `str()` and hex formatting of numbers each have a parser beside them,
and a round-trip lemma shows that the generated text reads back to what
produced it. The UCF file as a whole is described line by line: which lines
it holds and where each signal's lines sit. The routing lemmas show that
the wiring is a bijection between the bits sent and the serializer slots.
The DAC lemmas show that a requested frame pulse is sent within one divider
period.

## Model

| member | source | states |
|---|---|---|
| Xilinx.FormatConstraint | tools/xilinx.py:15-23 | Pins gives `LOC=` and its first identifier. IOStandard gives `IOSTANDARD=` and its name. Drive gives `DRIVE=` followed by `str()` of the strength, which reads back to the strength. Misc gives its text unchanged. There is no text exactly for an unknown constraint kind or a Pins without identifiers. |
| Xilinx.FormatAll | tools/xilinx.py:26 | The constraint list formats exactly when each constraint does, element by element and in order. |
| Xilinx.NumberSubRoundTrip | tools/xilinx.py:27-29 | The `:number[.sub]` tail of the resource comment reads back to the number (`None` included) and the subsignal. |
| Xilinx.ResourceRoundTrip | tools/xilinx.py:27-29 | The resource comment `name:number[.sub]` reads back to the resource name triple when the name has no colon. |
| Xilinx.FormatUcf | tools/xilinx.py:25-30 | The line exists exactly when every extra constraint formats; otherwise the error is BadConstraint. The line carries `LOC=pin` first, then the other constraints in order, then the resource comment. |
| Xilinx.SplitBarsJoin | tools/xilinx.py:30 | Constraint texts joined with ` \| ` split back into the same list. |
| Xilinx.UcfLineRoundTrip | tools/xilinx.py:30 | A rendered NET line parses back to its signal name, constraint texts and resource comment. |
| Xilinx.NetLinesStopAtError | tools/xilinx.py:35-40 | Once a signal fails to format, the signals after it do not change the outcome. |
| Xilinx.SignalLinesShape | tools/xilinx.py:35-40 | A signal with pins has lines exactly when its constraints format. It has one line per pin, and line j is the UCF line of pin j under its indexed or bare name. |
| Xilinx.SignalLinesRead | tools/xilinx.py:35-40 | A signal's lines exist exactly when it has pins and all its constraints format. Each line parses back to the name `sig(j)` (or `sig` for one pin), `LOC=` of pin j followed by the other constraints, and the resource. |
| Xilinx.FormatIndexed | tools/xilinx.py:36-38 | The loop over the pins of a multi-pin signal yields the concatenation of the signal's lines, or the error. |
| Xilinx.FormatSignal | tools/xilinx.py:36-40 | The text of one signal: indexed lines for several pins, one bare line for one pin, NoPins for none. |
| Xilinx.NetLinesOk | tools/xilinx.py:35-40 | All NET lines exist exactly when every signal's lines do. |
| Xilinx.NetLinesLength | tools/xilinx.py:35-40 | The file has exactly one NET line per pin over all signals. |
| Xilinx.NetLinesInOrder | tools/xilinx.py:35-40 | Signal i's lines sit, in order, right after the lines of the pins of the signals before it. |
| Xilinx.BuildUcf | tools/xilinx.py:32-46 | The UCF text is all NET lines, signal after signal, followed by each platform command's template filled with the names of its signals. |
| Xilinx.BuildProject | tools/xilinx.py:64-67 | The project-file loop yields one `kind work path` line per source, in order. |
| Xilinx.ProjectRoundTrip | tools/xilinx.py:64-66 | The project file parses back to the exact source list when no language or path holds a space or a newline. |
| Xilinx.ChooseVersion | tools/xilinx.py:87-88 | A version is chosen exactly when one is installed, and it is an installed one. The configured version wins when it is installed and not empty. Otherwise the choice is the greatest installed version in string order. |
| Xilinx.DefaultVersionLatest | tools/xilinx.py:87-88 | With no version configured, the greatest installed version in string order is chosen. |
| Xilinx.VersionsCompareAsStrings | tools/xilinx.py:88 | Versions compare as strings: with 14.7 and 9.2 installed, 9.2 is chosen. |
| Xilinx.SettingsFile | tools/xilinx.py:89 | The settings path is `/opt/Xilinx/`, then the chosen version, then `/ISE_DS/settings32.sh`. |
| Text.DigitsRoundTrip | library/baseapp.py:49 | The digits of a number in any base from 2 to 16 read back to the number. |
| Text.DecimalRoundTrip | tools/xilinx.py:21 | `str()` of an integer, sign included, reads back to the integer. |
| Text.HexRoundTrip | library/baseapp.py:49 | `{:x}` and `{:08x}` texts read back to the number. |
| Text.Hex08 | library/baseapp.py:49 | `{:08x}` is at least eight hex digits long, and is the plain hex text when that needs more than eight. |
| Text.SplitJoin | tools/xilinx.py:30 | Splitting at a separator undoes joining with it when no part holds the separator. |
| Text.SplitUnlines | library/baseapp.py:47-50 | Newline-terminated lines split back to the lines, plus the empty tail. |
| Text.MaxOf | tools/xilinx.py:88 | `max` of a non-empty list is an element and is at least every element in string order. |
| Text.LexTotal | tools/xilinx.py:88 | String order is total. |
| Text.LexTrans | tools/xilinx.py:88 | String order is transitive. |
| Text.LexAntisymmetric | tools/xilinx.py:88 | String order is antisymmetric, so the maximum is unique. |
| BaseApp.FormatSymtab | library/baseapp.py:45-50 | The loop yields one newline-terminated `name\tkind\t0x%08x\t0x%x` line per symbol, in order. |
| BaseApp.EntryFields | library/baseapp.py:49 | A symbol line has no newline and splits at tabs into exactly the name, the kind, the padded address and the size. |
| BaseApp.EntryRoundTrip | library/baseapp.py:49 | A symbol line parses back to its symbol when the name and kind hold no tab or newline. |
| BaseApp.SymtabRoundTrip | library/baseapp.py:45-50 | The formatted symbol table parses back to the exact symbol list. |
| BaseApp.RhinoSymtab | library/baseapp.py:85-87 | The RHINO symbol table is the CSR table at CSR_BASE followed by the stream table at DMA_BASE with DMA_PORT_RANGE-byte ports. |
| BaseApp.RhinoSymtabText | library/baseapp.py:45-50 | The RHINO table's text is the CSR part's text followed by the stream part's text. |
| BaseApp.BaseAddressTexts | library/baseapp.py:12-13 | The two base addresses print as `08000000` and `10000000`. |
| BaseApp.DmaRequestPins | library/baseapp.py:70-78 | The fragment requests stream count + 3 pins. `gpmc_dmareq_n` k is among them exactly when k is below the number of streams in both directions, and no pin is requested twice. |
| BaseApp.AsComp | library/baseapp.py:36-37 | A bare class becomes an unnamed component description without parameters; a description stays as it is. |
| BaseApp.InstancesAt | library/baseapp.py:35-43 | There is one instance per component, in order, each built from its class, parameters and name. |
| BaseApp.NameMapKeys | library/baseapp.py:41-42 | A name is in the component map exactly when some component was described with that name. |
| BaseApp.NameMapLast | library/baseapp.py:41-42 | A name maps to the instance of the last component that carries it. |
| BaseApp.GenericBaseApp.constructor | library/baseapp.py:22-43 | The constructor keeps the platform resources and builds the clock generator first. The list of all components is the generator followed by every instance in order. The map holds the named instances, and the current component name is gone after the loop. |
| BaseApp.AllComponentsOrder | library/baseapp.py:31-43 | The clock generator is first, and component i is at position i + 1. |
| TiSerdes.Serialize4 | library/ti_data.py:5-49 | The 4:1 serializer has four single-unit data ports D1-D4. Port D(n) carries input n - 1. |
| TiSerdes.Serialize4Bijective | library/ti_data.py:5-49 | The four ports are distinct, and every input is on its port. |
| TiSerdes.Serialize8 | library/ti_data.py:51-139 | The cascaded 8:1 serializer has eight data ports. Inputs 4-7 go to the master's D1-D4 and inputs 0-3 to the slave's D1-D4. |
| TiSerdes.Serialize8Bijective | library/ti_data.py:51-139 | The eight (unit, port) pairs are distinct. Input k is on master port k - 3 for k >= 4, and on slave port k + 1 for k < 4. |
| TiSerdes.SerializePrimitive | library/ti_data.py:5-139 | The per-slot routing (`Serialize`: slot m of a serializer takes input Ratio − 1 − m) is exactly the 4:1 table for the DAC and the cascaded 8:1 table for the double-rate DAC. |
| TiSerdes.DacWiring | library/ti_data.py:226-232 | The DAC's loop over the lanes, plus the frame lane, builds exactly the wiring the routing table describes. |
| TiSerdes.Dac2xWiring | library/ti_data.py:287-295 | The same for the double-rate DAC. |
| TiSerdes.WiringBijective | library/ti_data.py:226-232 | For both DACs, the wiring has Ratio × (dw + 1) slots. Every bit sent occupies exactly one slot, every slot carries a bit that is sent, and no (lane, port) pair is used twice. |
| TiSerdes.LaneBitSent | library/ti_data.py:226-229 | Each sample bit sent goes out on lane `index mod dw`. |
| TiSerdes.AdcFragment | library/ti_data.py:309-368 | The ADC always offers a token (stb = 1), and its instances are the per-lane DDR captures. |
| TiSerdes.AdcBijective | library/ti_data.py:320-366 | Lane i's Q0 captures bit 2i+1 of a or b, and Q1 captures bit 2i. Every bit below 2·dw of both fields is captured exactly once, and no DDR output is used twice. |
| TiData.RegistersWellFormed | library/ti_data.py:146-174 | The bank holds six registers with distinct names; the four patterns are as wide as a sample field. |
| TiData.SinkLayoutWellFormed | library/ti_data.py:155-168 | The sink has four fields (double rate) or two, with distinct names, each 2·dw wide. |
| TiData.PatternResetFits | library/ti_data.py:147-151 | The reset value 0x55aa fits a pattern register exactly when the DAC has at least eight data lanes. |
| TiData.SampleFieldsSent | library/ti_data.py:186-232 | Every bit of every sample field occupies a slot of the serializer wiring. The low halves of the last Q field go through the one-cycle-late copy. |
| TiData.AdcFieldsDriven | library/ti_data.py:303-307 | Every bit of both ADC sample fields is driven by a DDR output. |
| TiData.FrameWord | library/ti_data.py:206-211 | The frame word is 0x6 (0x60 for the double rate) exactly on a cycle where the divider is zero and a frame is requested, test mode is on or a sample is offered; otherwise it is 0. |
| TiData.ControlNext | library/ti_data.py:213-223 | The divider counts modulo 8 (4 for the double rate). A pulse request wins over the clear at divider zero, and the latch is otherwise held. Transmit enable is test mode or the strobe. |
| TiData.DividerCounts | library/ti_data.py:221 | After n cycles the divider is its start value plus n, modulo the period. |
| TiData.PulseHeld | library/ti_data.py:213-219 | A latched pulse survives every cycle whose divider is not zero. |
| TiData.PulseReachesFrame | library/ti_data.py:206-219 | A latched pulse is sent as the frame mark when the divider next reaches zero. |
| TiData.RequestFramed | library/ti_data.py:206-219 | A write to `pulse_frame` is followed, within one divider period, by a cycle that sends the frame mark. |
| TiData.DacComb | library/ti_data.py:192-212 | The sink acknowledges exactly outside test mode. In test mode the output is pattern 1 on odd divider values and pattern 0 on even ones; otherwise it is the token. |
| TiData.DacNext | library/ti_data.py:213-224 | The next state: control registers per ControlNext, and the delayed Q is this cycle's multiplexed Q. |
| TiData.DacTestModeIgnoresToken | library/ti_data.py:193-204 | In test mode the token does not affect any output and is not acknowledged. |
| TiData.DacPatternsAlternate | library/ti_data.py:194-201 | In test mode, pattern 0 is sent on an even divider cycle and pattern 1 on the cycle after it. |
| TiData.DacLogic.constructor | library/ti_data.py:187-212 | All registers start at zero. |
| TiData.DacLogic.Step | library/ti_data.py:180-224 | One clock edge: the outputs come from the registers before the edge, and the registers move to DacNext. |
| TiData.Dac2xComb | library/ti_data.py:254-273 | The sink acknowledges exactly outside test mode. Test mode sends both patterns every cycle; otherwise both samples of the token. |
| TiData.Dac2xNext | library/ti_data.py:274-285 | The next state: control registers per ControlNext, and the delayed second Q is this cycle's second Q. |
| TiData.Dac2xTestModeIgnoresToken | library/ti_data.py:254-266 | In test mode the token does not affect any output and is not acknowledged. |
| TiData.Dac2xLogic.constructor | library/ti_data.py:247-273 | All registers start at zero. |
| TiData.Dac2xLogic.Step | library/ti_data.py:240-285 | One clock edge of the double-rate DAC. |

## Left out

- File output, listing and inspecting the installation directory,
  `Decimal` validation of version names, the XST script, the build script
  with its timestamp, and running the tools. These are I/O. ChooseVersion
  receives the already-filtered list of installed versions.
- `ns.get_name` and `template.format` are function parameters of BuildUcf.
  A template that names a field missing from its arguments raises KeyError
  in the source; that error is not modelled.
- `ConstraintManager`, `CSRManager`, `StreamManager`, `GPMC`,
  `verilog.convert` and `get_source` are not part of this model.
  - RhinoSymtab takes the two managers' symbol tables as functions of the
    base address (and port range).
  - FragmentRequests models only the pin requests of `get_fragment`, not the
    fragments it sums.
- BaseApp.GenericBaseApp.constructor:
  - a component class is modelled as a pure function of its class,
    parameters and the current component name, so side effects of component
    constructors on the application are not captured;
  - the clock generator factory receives the platform resources rather than
    the application object;
  - the `constraints` field is left out;
  - instance identity and aliasing are not modelled.
- Symbol addresses and sizes are naturals. Python's formatting of negative
  numbers in `{:x}` is not modelled.
- TiData.DacComb, TiData.Dac2xComb: samples and patterns are unbounded
  naturals. The 2·dw-bit width of the signals is stated in the layouts but
  not enforced on the values, so truncation of a wider pattern is not
  modelled.
- The OSERDES2, OBUFDS, IBUFDS and IDDR2 parameters, clocks and strobes
  (data rate, serdes mode, clock ports, cascade signals) are not modelled;
  only the data connections are.
- `ti_wave.py`, `epb.py` and the simulation models are not part of this
  model.
