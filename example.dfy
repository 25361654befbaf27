/**
 * A complete program file, from its text to what it prints: a fresh CPU
 * loads a file that adds 8 and 9, prints the sum and halts.
 */
module Example {
  import opened Isa
  import Loader
  import Ls8
  import Laws

  /** The program's bytes: LDI R0,8; LDI R1,9; ADD R0,R1; PRN R0; HLT. */
  function SumImage(): (image: seq<int>)
    ensures |image| == 12
  {
    [LDI, 0, 8, LDI, 1, 9, ADD, 0, 1, PRN, 0, HLT]
  }

  /** Line i of the file: the numeral of byte i, a space and a comment. */
  function SumListing(notes: seq<string>): (lines: seq<string>)
    requires |notes| == |SumImage()|
    ensures |lines| == |notes|
  {
    seq(|notes|, i requires 0 <= i < |notes| => Loader.Bits(SumImage()[i], 8) + " " + "#" + notes[i])
  }

  /** The comment on each line, up to and including its newline. */
  function SumNotes(): seq<string> {
    [" LDI R0,8\n", " R0\n", " 8\n", " LDI R1,9\n", " R1\n", " 9\n",
     " ADD R0,R1\n", " R0\n", " R1\n", " PRN R0\n", " R0\n", " HLT\n"]
  }

  /** The whole file: a header comment, then one line per byte. */
  function SumFile(): seq<string> {
    [Header()] + SumListing(SumNotes())
  }

  /** A comment-only first line. */
  function Header(): string {
    "# 8 + 9\n"
  }

  /** The header is a comment line. */
  lemma HeaderIsBlank()
    ensures Loader.Blank(Header())
  {
  }

  /** Every line of the listing is well formed and loads its byte. */
  lemma SumListingLoads()
    ensures forall i :: 0 <= i < |SumListing(SumNotes())| ==> Loader.WellFormed(SumListing(SumNotes())[i])
    ensures Loader.Program(SumListing(SumNotes())) == SumImage()
  {
    var listing := SumListing(SumNotes());
    forall i | 0 <= i < |listing|
      ensures Loader.Entry(listing[i]) == [SumImage()[i]]
      ensures Loader.WellFormed(listing[i])
    {
      Loader.NumeralLine(SumImage()[i], 8, " ", SumNotes()[i]);
      Loader.NumeralCode(Loader.Bits(SumImage()[i], 8), " ", SumNotes()[i]);
    }
    Loader.ProgramOfValues(listing, SumImage());
  }

  /** The header takes no address and every other line loads its byte. */
  lemma SumFileLoads()
    ensures Loader.AllWellFormed(SumFile())
    ensures Loader.Program(SumFile()) == SumImage()
  {
    var listing := SumListing(SumNotes());
    SumListingLoads();
    HeaderIsBlank();
    SumFileWellFormed(listing);
    Loader.BlankTakesNoAddress([], Header(), listing);
    assert [] + [Header()] + listing == SumFile();
    assert [] + listing == listing;
  }

  lemma SumFileWellFormed(listing: seq<string>)
    requires listing == SumListing(SumNotes())
    requires Loader.Blank(Header())
    requires forall i :: 0 <= i < |listing| ==> Loader.WellFormed(listing[i])
    ensures Loader.AllWellFormed(SumFile())
  {
  }

  /** A fresh machine holding the image from address 0. */
  function SumMachine(): (m: Machine)
    ensures Shaped(m)
  {
    Initial().(ram := SumImage() + Initial().ram[|SumImage()|..])
  }

  /** The machine after LDI R0,8. */
  function SumAfter1(): Machine {
    SumMachine().(reg := SumMachine().reg[0 := 8], pc := 3)
  }

  /** ... after LDI R1,9. */
  function SumAfter2(): Machine {
    SumAfter1().(reg := SumAfter1().reg[1 := 9], pc := 6)
  }

  /** ... after ADD R0,R1. */
  function SumAfter3(): Machine {
    SumAfter2().(reg := SumAfter2().reg[0 := 17], pc := 9)
  }

  /** ... after PRN R0, which stops at the HLT. */
  function SumAfter4(): Machine {
    SumAfter3().(out := [17], pc := 11)
  }

  /** Each of the four instructions takes the machine to the next state. */
  lemma SumStep1()
    ensures Defined(SumMachine()) && Exec(SumMachine()) == (Running, SumAfter1())
  {
  }

  lemma SumStep2()
    ensures Defined(SumAfter1()) && Exec(SumAfter1()) == (Running, SumAfter2())
  {
  }

  lemma SumStep3()
    ensures Defined(SumAfter2()) && Exec(SumAfter2()) == (Running, SumAfter3())
  {
  }

  lemma SumStep4()
    ensures Defined(SumAfter3()) && Exec(SumAfter3()) == (Running, SumAfter4())
    ensures Defined(SumAfter4()) && SumAfter4().ram[SumAfter4().pc] == HLT
  {
    var m := SumAfter3();
    assert m.ram[9] == PRN && m.ram[10] == 0 && m.ram[11] == HLT && m.reg[0] == 17;
    assert m.out == [] && m.out + [17] == [17];
  }

  /** Five instructions from the loaded image: 17 is printed, then HLT. */
  lemma SumRuns()
    ensures RunSpec(SumMachine(), 5) == (Halted(ExitCode), SumAfter4())
    ensures SumAfter4().out == [17]
  {
    SumStep1();
    Laws.RunStep(SumMachine(), 5);
    SumStep2();
    Laws.RunStep(SumAfter1(), 4);
    SumStep3();
    Laws.RunStep(SumAfter2(), 3);
    SumStep4();
    Laws.RunStep(SumAfter3(), 2);
    Laws.StopIsFinal(SumAfter4(), 1);
  }

  /**
   * The emulator's whole use of the class: construct, load the file, run. The
   * run halts with exit status 1 after printing 17.
   */
  method RunSumFile() returns (status: Status, printed: seq<int>)
    ensures status == Halted(ExitCode) && printed == [17]
  {
    var cpu := new Ls8.Cpu();
    SumFileLoads();
    cpu.Load(SumFile());
    assert cpu.State() == SumMachine();
    SumRuns();
    status := cpu.Run(5);
    printed := cpu.output;
  }
}
