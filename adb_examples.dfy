/** The bridge output used as the reference example: a header, one authorised
    device and one unauthorised device. */
module AdbExamples {
  import opened PyText
  import opened AdbDevices

  lemma StandardHeader()
    ensures IsHeader("List of devices attached")
  {
  }

  lemma ExampleWords()
    ensures AllWellFormed([Entry("SERIAL1", "device"), Entry("SERIAL2", "unauthorized")])
  {
    FirstEntryWords();
    SecondEntryWords();
  }

  lemma FirstEntryWords()
    ensures WellFormed(Entry("SERIAL1", "device"))
  {
  }

  lemma SecondEntryWords()
    ensures WellFormed(Entry("SERIAL2", "unauthorized"))
  {
  }

  /** The example output laid out as the bridge builds it: the header, each row
      as "serial<TAB>state" after a "\n", and the final "\n". */
  lemma ExampleLayout()
    ensures "List of devices attached" + "\n" + "SERIAL1" + "\t" + "device" + "\n" + "SERIAL2" + "\t" + "unauthorized" + "\n"
         == "List of devices attached\nSERIAL1\tdevice\nSERIAL2\tunauthorized\n"
  {
  }

  lemma UnauthorizedExcluded(stdout: string)
    requires stdout == "List of devices attached\nSERIAL1\tdevice\nSERIAL2\tunauthorized\n"
    ensures ParsedDevices(stdout) == ["SERIAL1"]
  {
    var e1, e2 := Entry("SERIAL1", "device"), Entry("SERIAL2", "unauthorized");
    ListingOfTwo("List of devices attached", e1, e2, "\n");
    ExampleLayout();
    StandardHeader();
    ExampleWords();
    assert Blank("\n");
    ListingRoundTrip("List of devices attached", [e1, e2], "\n");
    assert [e1, e2][1..] == [e2];
  }
}
