/**
 * Worked cases of the pipeline, taken from the repository's unit tests: the
 * ids they use, the name lists they format, the totals they expect, and two
 * complete notifications.
 */
module DeliveryExamples {
  import opened UserId
  import opened DeliveryService
  import opened DeliveryController

  // The ids are written as their five groups: "618f4ed6-1c5b-4993-a149-f64700bf31dd" and so on.
  const CordellId: string := "618f4ed6" + "-" + "1c5b" + "-" + "4993" + "-" + "a149" + "-" + "f64700bf31dd"
  const HermanId: string := "ddd21c3a" + "-" + "c45e" + "-" + "4d5a" + "-" + "b3a4" + "-" + "a6851d58a351"
  const ThreeCatsId: string := "ea17433d" + "-" + "7527" + "-" + "45a5" + "-" + "acbc" + "-" + "2e2f78f95c6e"
  const MixedCatsId: string := "76d6eb8d" + "-" + "5c2e" + "-" + "49f7" + "-" + "b798" + "-" + "d69700dda4c3"
  const UnknownId: string := "00000000" + "-" + "0000" + "-" + "0000" + "-" + "0000" + "-" + "000000000000"

  const Cordell: User := User(CordellId, "Cordell", "Koepp-Torphy", "Cordell.Koepp-Torphy23@hotmail.com",
    [Cat("Betsy", true, "Savannah", "E")])

  const Herman: User := User(HermanId, "Herman", "", "",
    [Cat("Willie", true, "", "C"), Cat("Chaz", true, "", "C")])

  const Directory: seq<User> := [Cordell, Herman]

  /** The ids of the tests: five well-formed ones, and "!@#" and an uppercase variant that are not. */
  lemma SampleIds()
    ensures IsValidUserId(CordellId) && IsValidUserId(HermanId) && IsValidUserId(UnknownId)
    ensures IsValidUserId(ThreeCatsId) && IsValidUserId(MixedCatsId)
    ensures !IsValidUserId("!@#")
    ensures !IsValidUserId("618F4ED6-1C5B-4993-A149-F64700BF31DD")
  {
    CordellIdValid();
    HermanIdValid();
    UnknownIdValid();
    ThreeCatsIdValid();
    MixedCatsIdValid();
    SymbolsIdInvalid();
    UppercaseRejected("618F4ED6-1C5B-4993-A149-F64700BF31DD", 3);
  }

  lemma SymbolsIdInvalid()
    ensures !IsValidUserId("!@#")
  {
    assert |"!@#"| < 8;
  }

  lemma CordellIdValid()
    ensures IsValidUserId(CordellId)
  {
    assert AllLowerHex("618f4ed6") && AllLowerHex("1c5b") && AllLowerHex("4993") && AllLowerHex("a149");
    assert AllLowerHex("f64700bf31dd");
    ValidFromGroups("618f4ed6", "1c5b", "4993", "a149", "f64700bf31dd");
  }

  lemma HermanIdValid()
    ensures IsValidUserId(HermanId)
  {
    assert AllLowerHex("ddd21c3a") && AllLowerHex("c45e") && AllLowerHex("4d5a") && AllLowerHex("b3a4");
    assert AllLowerHex("a6851d58a351");
    ValidFromGroups("ddd21c3a", "c45e", "4d5a", "b3a4", "a6851d58a351");
  }

  lemma ThreeCatsIdValid()
    ensures IsValidUserId(ThreeCatsId)
  {
    assert AllLowerHex("ea17433d") && AllLowerHex("7527") && AllLowerHex("45a5") && AllLowerHex("acbc");
    assert AllLowerHex("2e2f78f95c6e");
    ValidFromGroups("ea17433d", "7527", "45a5", "acbc", "2e2f78f95c6e");
  }

  lemma MixedCatsIdValid()
    ensures IsValidUserId(MixedCatsId)
  {
    assert AllLowerHex("76d6eb8d") && AllLowerHex("5c2e") && AllLowerHex("49f7") && AllLowerHex("b798");
    assert AllLowerHex("d69700dda4c3");
    ValidFromGroups("76d6eb8d", "5c2e", "49f7", "b798", "d69700dda4c3");
  }

  lemma UnknownIdValid()
    ensures IsValidUserId(UnknownId)
  {
    assert AllLowerHex("00000000") && AllLowerHex("0000") && AllLowerHex("000000000000");
    ValidFromGroups("00000000", "0000", "0000", "0000", "000000000000");
  }

  /** The name lists of the tests, with no Oxford comma for three names. */
  lemma SampleNameLists()
    ensures FormatNames([]) == "No active cats"
    ensures FormatNames(["Betsy"]) == "Betsy"
    ensures FormatNames(["Willie", "Chaz"]) == "Willie and Chaz"
    ensures FormatNames(["Cristina", "Mariah", "Rebekah"]) == "Cristina, Mariah and Rebekah"
    ensures ActiveCatNames(MixedCats) == ["Destiny", "Alexandre"]
    ensures FormatNames(ActiveCatNames(MixedCats)) == "Destiny and Alexandre"
  {
    TwoNames();
    ThreeNames();
    MixedNames();
    MixedFormatted();
  }

  const MixedCats: seq<Cat> := [Cat("Destiny", true, "", "A"), Cat("Rex", false, "", "B"), Cat("Alexandre", true, "", "C")]

  lemma TwoNames()
    ensures FormatNames(["Willie", "Chaz"]) == "Willie and Chaz"
  {
    assert ["Willie", "Chaz"][..1] == ["Willie"];
  }

  lemma ThreeNames()
    ensures FormatNames(["Cristina", "Mariah", "Rebekah"]) == "Cristina, Mariah and Rebekah"
  {
    var three := ["Cristina", "Mariah", "Rebekah"];
    assert three[..2] == ["Cristina", "Mariah"];
    assert ["Cristina", "Mariah"][1..] == ["Mariah"];
    assert Join(["Cristina", "Mariah"], ", ") == "Cristina, Mariah";
  }

  lemma MixedNames()
    ensures ActiveCatNames(MixedCats) == ["Destiny", "Alexandre"]
  {
    ActiveCatsAppend([MixedCats[0]], MixedCats[1..]);
    ActiveCatsAppend([MixedCats[1]], MixedCats[2..]);
    assert MixedCats[2..][1..] == [];
    assert ActiveCats(MixedCats) == [MixedCats[0], MixedCats[2]];
  }

  lemma MixedFormatted()
    ensures FormatNames(["Destiny", "Alexandre"]) == "Destiny and Alexandre"
  {
    assert ["Destiny", "Alexandre"][..1] == ["Destiny"];
  }

  /**
   * Totals: 69.00 for one size E, 125.50 for two size C, 197.50 for sizes B, E
   * and E, exact sums for mixed sizes, 0 for an unknown size.
   */
  lemma SampleTotals()
    ensures PriceSum(["E"]) == 6900
    ensures PriceSum(["C", "C"]) == 12550
    ensures PriceSum(["E", "D"]) == 13500
    ensures PriceSum(["E", "E"]) == 13800
    ensures PriceSum(["Z"]) == 0
    ensures PriceSum(["B", "E", "E"]) == 19750
  {
    assert ["E"][1..] == [] && ["D"][1..] == [];
    assert PriceSum(["E"]) == 6900;
    assert PouchPrice("C") == 6275 && PouchPrice("D") == 6600;
    assert ["C"][1..] == [] && ["C", "C"][1..] == ["C"];
    assert ["E", "D"][1..] == ["D"];
    assert ["E", "E"][1..] == ["E"];
    assert PouchPrice("B") == 5950;
    assert ["B", "E", "E"][1..] == ["E", "E"];
  }

  lemma CordellResolved()
    ensures GetUserDataById(Directory, CordellId) == Ok(Cordell)
  {
    CordellIdValid();
  }

  lemma HermanResolved()
    ensures GetUserDataById(Directory, HermanId) == Ok(Herman)
  {
    HermanIdValid();
    assert CordellId[0] != HermanId[0];
  }

  /**
   * Cordell's notification: one active size-E cat "Betsy", 69.00, no gift.
   * The texts are stated through the fixed template pieces, which spell
   * "Your next delivery for Betsy" and "Hey Cordell! In two days' time,
   * we'll be charging you for your next order for Betsy's fresh food."
   */
  lemma CordellNotification()
    ensures GenerateUserDeliveryComms(Directory, CordellId) == Ok(Comms(
      TitlePrefix + "Betsy",
      Greeting + "Cordell" + MessageMiddle + "Betsy" + MessageEnd,
      6900, false))
  {
    CordellResolved();
    assert ActiveCats(Cordell.cats) == Cordell.cats by {
      assert Cordell.cats[1..] == [];
    }
    assert ActiveCatNames(Cordell.cats) == ["Betsy"];
    assert ActivePouchSizes(Cordell.cats) == ["E"];
    SampleTotals();
    CommsConsistent(Directory, CordellId, Cordell);
  }

  /** Herman's notification: "Willie" and "Chaz", both size C, 125.50, which earns the gift. */
  lemma HermanNotification()
    ensures GenerateUserDeliveryComms(Directory, HermanId) == Ok(Comms(
      TitlePrefix + "Willie and Chaz",
      Greeting + "Herman" + MessageMiddle + "Willie and Chaz" + MessageEnd,
      12550, true))
  {
    HermanResolved();
    assert ActiveCats(Herman.cats) == Herman.cats by {
      assert Herman.cats[1..][1..] == [];
    }
    assert ActiveCatNames(Herman.cats) == ["Willie", "Chaz"];
    assert ActivePouchSizes(Herman.cats) == ["C", "C"];
    SampleNameLists();
    SampleTotals();
    CommsConsistent(Directory, HermanId, Herman);
  }

  /** A well-formed id no user has is not found, through the controller as well. */
  lemma UnknownUserNotFound()
    ensures GenerateUserDeliveryComms(Directory, UnknownId) == Fail(NotFound)
    ensures GetUserDeliveryComms(UnknownId, Wired(Directory)) == Fail(NotFound)
    ensures GetUserDeliveryComms("!@#", Wired(Directory)) == Fail(BadRequest)
  {
    UnknownIdValid();
    SymbolsIdInvalid();
    assert UnknownId[0] != CordellId[0] && UnknownId[0] != HermanId[0];
    ControllerOverService(Directory, UnknownId);
    ControllerOverService(Directory, "!@#");
  }
}
