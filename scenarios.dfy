/**
 * Concrete runs of `check_log` and `handle_dir` on small inputs, matching
 * the battles and directory trees the program is meant to handle.
 */
module Scenarios {
  import opened Wrappers
  import opened Search
  import opened Dispatch

  /** The JSON string `"Annika"`, quotes included, as the extractor returns it. */
  const AnnikaValue: seq<byte> := [0x22, 0x41, 0x6e, 0x6e, 0x69, 0x6b, 0x61, 0x22]

  /** The JSON string `"Bob"`. */
  const BobValue: seq<byte> := [0x22, 0x42, 0x6f, 0x62, 0x22]

  /** The JSON string `"normal"`. */
  const NormalValue: seq<byte> := [0x22, 0x6e, 0x6f, 0x72, 0x6d, 0x61, 0x6c, 0x22]

  const Date: string := "2021-03-01"

  const LogFile: FileName := Utf8Name("b1.log.json")

  /** `Annika` without its quotes. */
  const AnnikaRaw: seq<byte> := [0x41, 0x6e, 0x6e, 0x69, 0x6b, 0x61]

  /** `Bob` without its quotes. */
  const BobRaw: seq<byte> := [0x42, 0x6f, 0x62]

  lemma AnnikaText()
    ensures AsciiOf(AnnikaRaw) == "Annika"
  {
    AsciiOfAllAscii(AnnikaRaw);
    var t := AsciiOf(AnnikaRaw);
    assert t[0] == 'A' && t[1] == 'n' && t[2] == 'n' && t[3] == 'i' && t[4] == 'k' && t[5] == 'a';
  }

  lemma AnnikaNormalised()
    ensures StrToId("Annika") == "annika"
  {
    assert "Annika" == [] + ['A'] + "nnika";
    StrToIdIgnoresCase("", 'A', "nnika");
    assert AsciiLower('A') == 'a';
    assert [] + ['a'] + "nnika" == "annika";
    StrToIdFixedPoint("annika");
  }

  lemma AnnikaId()
    ensures BytesToId(Some(AnnikaValue)) == Some("annika")
  {
    assert AnnikaValue == [Quote] + AnnikaRaw + [Quote];
    BytesToIdIgnoresQuotes(AnnikaRaw);
    AnnikaText();
    AnnikaNormalised();
  }

  lemma BobText()
    ensures AsciiOf(BobRaw) == "Bob"
  {
    AsciiOfAllAscii(BobRaw);
    var t := AsciiOf(BobRaw);
    assert t[0] == 'B' && t[1] == 'o' && t[2] == 'b';
  }

  lemma BobNormalised()
    ensures StrToId("Bob") == "bob"
  {
    assert "Bob" == [] + ['B'] + "ob";
    StrToIdIgnoresCase("", 'B', "ob");
    assert AsciiLower('B') == 'b';
    assert [] + ['b'] + "ob" == "bob";
    StrToIdFixedPoint("bob");
  }

  lemma BobId()
    ensures BytesToId(Some(BobValue)) == Some("bob")
  {
    assert BobValue == [Quote] + BobRaw + [Quote];
    BytesToIdIgnoresQuotes(BobRaw);
    BobText();
    BobNormalised();
  }

  lemma LogFileRoom()
    ensures Room(LogFile) == "b1"
  {
    assert '.' !in "b1";
    NoDotNoSuffix("b1");
    RoomOfLogFile("b1");
    assert "b1" + LogSuffix == "b1.log.json";
  }

  lemma RoomOfTwoLogs(a: string, b: string)
    requires !Occurs(LogSuffix, a) && !Occurs(LogSuffix, b)
    ensures Room(Utf8Name(a + LogSuffix + (b + LogSuffix))) == a + b
  {
    RemoveAllStripsSuffix(b);
    RemoveAllSplit(a, b + LogSuffix);
  }

  /** Every `.log.json` goes, not only a trailing one: `a.log.jsonb.log.json` is room `ab`. */
  lemma InteriorLogSuffix()
    ensures Room(Utf8Name("a.log.jsonb.log.json")) == "ab"
  {
    assert !Occurs(LogSuffix, "a") by {
      NoDotNoSuffix("a");
    }
    assert !Occurs(LogSuffix, "b") by {
      NoDotNoSuffix("b");
    }
    RoomOfTwoLogs("a", "b");
    TwoLogsName();
  }

  lemma TwoLogsName()
    ensures "a" + LogSuffix + ("b" + LogSuffix) == "a.log.jsonb.log.json"
  {
  }

  lemma NormalIsNoForfeit()
    ensures !IsForfeit(Some(NormalValue))
  {
    assert NormalValue[1] != ForfeitBytes[1];
  }

  lemma AnnikaWonNormally()
    ensures WinStr(Some("annika"), false) == "annika won normally"
  {
  }

  /** The ids of the three values that name a player in the battles below. */
  lemma BattleIds(p1: Option<seq<byte>>, p2: Option<seq<byte>>, winner: Option<seq<byte>>)
    requires p1 == Some(AnnikaValue) && p2 == Some(BobValue) && winner in {None, Some(AnnikaValue)}
    ensures BytesToId(p1) == Some("annika") && BytesToId(p2) == Some("bob")
    ensures winner.Some? ==> BytesToId(winner) == Some("annika")
  {
    AnnikaId();
    BobId();
  }

  /** Annika beats Bob normally; searching for Annika with no filters reports it. */
  lemma AnnikaWinsNormally()
    ensures CheckLog(NewSearcher("annika", false, false),
      [Some(AnnikaValue), Some(BobValue), Some(AnnikaValue), Some(NormalValue)], LogFile, Date)
      == Ok(Some(ReportLine(Date, "b1", "annika", "bob", "annika won normally")))
  {
    var s := NewSearcher("annika", false, false);
    var json := [Some(AnnikaValue), Some(BobValue), Some(AnnikaValue), Some(NormalValue)];
    assert s.userId == "annika" by {
      StrToIdFixedPoint("annika");
    }
    BattleIds(json[0], json[1], json[2]);
    UnfilteredReportsEveryBattle(s, json, LogFile, Date);
    CheckLogLine(s, json, LogFile, Date);
    LogFileRoom();
    NormalIsNoForfeit();
    AnnikaWonNormally();
  }

  /** The same battle, searching for Bob's wins only: nothing is reported. */
  lemma BobDidNotWin()
    ensures CheckLog(NewSearcher("bob", true, false),
      [Some(AnnikaValue), Some(BobValue), Some(AnnikaValue), Some(NormalValue)], LogFile, Date)
      == Ok(None)
  {
    var s := NewSearcher("bob", true, false);
    var json := [Some(AnnikaValue), Some(BobValue), Some(AnnikaValue), Some(NormalValue)];
    assert s.userId == "bob" by {
      StrToIdFixedPoint("bob");
    }
    BattleIds(json[0], json[1], json[2]);
    CheckLogReportsExactly(s, json, LogFile, Date);
  }

  /** A forfeited battle without a winner, searching for forfeits only. */
  lemma ForfeitWithoutWinner()
    ensures CheckLog(NewSearcher("annika", false, true),
      [Some(AnnikaValue), Some(BobValue), None, Some(ForfeitBytes)], LogFile, Date)
      == Ok(Some(ReportLine(Date, "b1", "annika", "bob", "there was no winner")))
  {
    var s := NewSearcher("annika", false, true);
    var json := [Some(AnnikaValue), Some(BobValue), None, Some(ForfeitBytes)];
    BattleIds(json[0], json[1], json[2]);
    assert CheckLog(s, json, LogFile, Date).Ok? && CheckLog(s, json, LogFile, Date).value.Some? by {
      assert s.userId == "annika" by {
        StrToIdFixedPoint("annika");
      }
      CheckLogReportsExactly(s, json, LogFile, Date);
    }
    CheckLogLine(s, json, LogFile, Date);
    LogFileRoom();
  }

  /** A log without a `p2` value is refused. */
  lemma MissingPlayerTwo()
    ensures CheckLog(NewSearcher("annika", false, false),
      [Some(AnnikaValue), None, None, None], LogFile, Date)
      == Err(FaultyJSON(NoP2))
  {
  }

  function FileAt(dir: string, name: string): Path {
    Path(dir + "/" + name, Utf8Name(name))
  }

  const RootPath: string := "/logs/2021-03-01"

  const SubPath: string := "/logs/2021-03-01/sub"

  const Sub: Dir := Dir(Path(SubPath, Utf8Name("sub")), Entries([FileEntry(FileAt(SubPath, "d"))]))

  const Root: Dir := Dir(Path(RootPath, Utf8Name(Date)),
    Entries([FileEntry(FileAt(RootPath, "a")), FileEntry(FileAt(RootPath, "b")), SubDir(Sub), FileEntry(FileAt(RootPath, "c"))]))

  /**
   * `/logs/2021-03-01` holds `a`, `b`, a directory `sub` holding `d`, then
   * `c`. With two workers, the files of the root go 0, 1, 0 round the
   * workers; `sub` starts its own count at worker 0 and labels `d` with its
   * own name.
   */
  lemma NestedWalk()
    ensures WalkDir(Root, 2) == Walk([
      SendTo(0, File(FileAt(RootPath, "a"), Date)),
      SendTo(1, File(FileAt(RootPath, "b"), Date)),
      SendTo(0, File(FileAt(SubPath, "d"), "sub")),
      SendTo(0, File(FileAt(RootPath, "c"), Date))], Finished)
  {
    var a := SendTo(0, File(FileAt(RootPath, "a"), Date));
    var b := SendTo(1, File(FileAt(RootPath, "b"), Date));
    var d := SendTo(0, File(FileAt(SubPath, "d"), "sub"));
    var c := SendTo(0, File(FileAt(RootPath, "c"), Date));
    assert WalkEntries(Sub, "sub", 1, 1, 2) == Walk([], Finished);
    assert WalkEntries(Sub, "sub", 0, 0, 2) == Walk([d], Finished);
    assert WalkDir(Sub, 2) == Walk([d], Finished);
    assert WalkEntries(Root, Date, 4, 1, 2) == Walk([], Finished);
    assert WalkEntries(Root, Date, 3, 0, 2) == Walk([c], Finished);
    assert WalkEntries(Root, Date, 2, 0, 2) == Walk([d, c], Finished);
    assert WalkEntries(Root, Date, 1, 1, 2) == Walk([b, d, c], Finished);
    assert WalkEntries(Root, Date, 0, 0, 2) == Walk([a, b, d, c], Finished);
  }
}
