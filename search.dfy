/**
 * The per-file part of battlesearch (src/search.rs): the identity normaliser
 * `str_to_id`, its lifting `bytes_to_id` over extracted JSON values, and the
 * decision and formatting logic of `BattleSearcher::check_log`.
 *
 * The JSON extractor is not part of this model: `CheckLog` receives what it
 * returned, one optional raw value per requested path (`$.p1`, `$.p2`,
 * `$.winner`, `$.endType`), with the JSON quotes still around strings.
 * Printing is modelled by returning the line.
 */
module Search {
  import opened Wrappers

  newtype byte = b: int | 0 <= b < 0x100

  /** What `Path::file_name` followed by `OsStr::to_str` makes of a path. */
  datatype FileName = NoFileName | NonUtf8Name | Utf8Name(name: string)

  /** A `PathBuf`: its full text and the view of its last component. */
  datatype Path = Path(full: string, fileName: FileName)

  /** `ToSend`: what the walker puts into a worker's queue. */
  datatype ToSend = File(path: Path, date: string) | Done

  /** The reasons behind `BattleSearchError::FaultyJSON`, in place of its message text. */
  datatype FaultyJson = FieldCount(found: nat) | NoP1 | NoP2

  /** The I/O operation behind a `BattleSearchError::IO`. */
  datatype IoFailure = ReadDir | FileType | ReadFile

  /** `BattleSearchError` without its `Join` variant (threads are not modelled). */
  datatype BattleSearchError =
    | FaultyJSON(reason: FaultyJson)
    | PathError(path: Path)
    | IO(failure: IoFailure)
    | Thread(unsent: ToSend)

  // ---------------------------------------------------------------------------
  // Identity normaliser: str_to_id
  // ---------------------------------------------------------------------------

  /** The characters `ID_REGEX` (`[^A-Za-z0-9]`) does not match. */
  predicate IsAsciiAlnum(c: char) {
    'A' <= c <= 'Z' || 'a' <= c <= 'z' || '0' <= c <= '9'
  }

  /** The characters a normalised id is made of. */
  predicate IsIdChar(c: char) {
    'a' <= c <= 'z' || '0' <= c <= '9'
  }

  predicate IsId(s: string) {
    forall i :: 0 <= i < |s| ==> IsIdChar(s[i])
  }

  function AsciiLower(c: char): char {
    if 'A' <= c <= 'Z' then (c as int + 32) as char else c
  }

  /** `ID_REGEX.replace_all(s, "")`: every character outside `[A-Za-z0-9]` deleted. */
  function StripNonAlnum(s: string): (r: string)
    ensures |r| <= |s|
    ensures forall i :: 0 <= i < |r| ==> IsAsciiAlnum(r[i])
  {
    if s == [] then [] else (if IsAsciiAlnum(s[0]) then [s[0]] else []) + StripNonAlnum(s[1..])
  }

  /**
   * `to_lowercase` as it acts on the stripped string. Only ASCII letters and
   * digits reach it, and on those Unicode lowercasing is ASCII lowercasing.
   */
  function Lowercase(s: string): (r: string)
    ensures |r| == |s|
  {
    seq(|s|, i requires 0 <= i < |s| => AsciiLower(s[i]))
  }

  /** `str_to_id`. */
  function StrToId(s: string): (r: string)
    ensures IsId(r)
    ensures |r| <= |s|
  {
    Lowercase(StripNonAlnum(s))
  }

  lemma {:induction false} StripNonAlnumConcat(a: string, b: string)
    ensures StripNonAlnum(a + b) == StripNonAlnum(a) + StripNonAlnum(b)
  {
    if a != [] {
      assert (a + b)[0] == a[0];
      assert (a + b)[1..] == a[1..] + b;
      StripNonAlnumConcat(a[1..], b);
    } else {
      assert a + b == b;
    }
  }

  /** Normalising a concatenation normalises each part: the id is assembled piece by piece. */
  lemma StrToIdConcat(a: string, b: string)
    ensures StrToId(a + b) == StrToId(a) + StrToId(b)
  {
    StripNonAlnumConcat(a, b);
  }

  /** A single character survives, lowercased, exactly when it is an ASCII letter or digit. */
  lemma StrToIdChar(c: char)
    ensures StrToId([c]) == if IsAsciiAlnum(c) then [AsciiLower(c)] else []
  {
    assert [c][1..] == [];
  }

  /**
   * Together with `StrToIdChar`, this pins `StrToId(s)` down as the in-order
   * subsequence of the ASCII letters and digits of `s`, lowercased.
   */
  lemma {:induction false} StrToIdCons(c: char, s: string)
    ensures StrToId([c] + s) == StrToId([c]) + StrToId(s)
  {
    StrToIdConcat([c], s);
  }

  /** A string is a fixed point of the normaliser exactly when it already is an id. */
  lemma {:induction false} StrToIdFixedPoint(s: string)
    ensures StrToId(s) == s <==> IsId(s)
  {
    if IsId(s) {
      StripIdUnchanged(s);
      assert Lowercase(s) == s;
    }
  }

  lemma {:induction false} StripIdUnchanged(s: string)
    requires IsId(s)
    ensures StripNonAlnum(s) == s
  {
    if s != [] {
      assert IsIdChar(s[0]);
      StripIdUnchanged(s[1..]);
    }
  }

  /** `str_to_id(str_to_id(s)) == str_to_id(s)`. */
  lemma StrToIdIdempotent(s: string)
    ensures StrToId(StrToId(s)) == StrToId(s)
  {
    StrToIdFixedPoint(StrToId(s));
  }

  /** Punctuation, spaces and other non-alphanumerics never affect the id. */
  lemma StrToIdIgnoresPunctuation(a: string, c: char, b: string)
    requires !IsAsciiAlnum(c)
    ensures StrToId(a + [c] + b) == StrToId(a + b)
  {
    StrToIdConcat(a + [c], b);
    StrToIdConcat(a, [c]);
    StrToIdConcat(a, b);
    StrToIdChar(c);
  }

  /** Letter case never affects the id. */
  lemma StrToIdIgnoresCase(a: string, c: char, b: string)
    ensures StrToId(a + [AsciiLower(c)] + b) == StrToId(a + [c] + b)
  {
    StrToIdConcat(a + [c], b);
    StrToIdConcat(a, [c]);
    StrToIdConcat(a + [AsciiLower(c)], b);
    StrToIdConcat(a, [AsciiLower(c)]);
    StrToIdChar(c);
    StrToIdChar(AsciiLower(c));
  }

  /** The display names `Ann-Ika` and `annika` belong to the same user. */
  lemma AnnIkaIsAnnika()
    ensures StrToId("Ann-Ika") == StrToId("annika") == "annika"
  {
    DropHyphen();
    LowerI();
    LowerA();
    StrToIdFixedPoint("annika");
  }

  lemma DropHyphen()
    ensures StrToId("Ann-Ika") == StrToId("AnnIka")
  {
    assert "Ann-Ika" == "Ann" + ['-'] + "Ika" && "Ann" + "Ika" == "AnnIka";
    StrToIdIgnoresPunctuation("Ann", '-', "Ika");
  }

  lemma LowerI()
    ensures StrToId("AnnIka") == StrToId("Annika")
  {
    assert AsciiLower('I') == 'i';
    assert "Ann" + ['I'] + "ka" == "AnnIka" && "Ann" + ['i'] + "ka" == "Annika";
    StrToIdIgnoresCase("Ann", 'I', "ka");
  }

  lemma LowerA()
    ensures StrToId("Annika") == StrToId("annika")
  {
    assert AsciiLower('A') == 'a';
    assert [] + ['A'] + "nnika" == "Annika" && [] + ['a'] + "nnika" == "annika";
    StrToIdIgnoresCase("", 'A', "nnika");
  }

  // ---------------------------------------------------------------------------
  // bytes_to_id and the lossy UTF-8 decoding it goes through
  // ---------------------------------------------------------------------------

  predicate IsAscii(c: char) {
    c < 0x80 as char
  }

  predicate IsAsciiByte(b: byte) {
    b < 0x80
  }

  function ByteChar(b: byte): (c: char)
    requires IsAsciiByte(b)
    ensures IsAscii(c) && c as int == b as int
  {
    (b as int) as char
  }

  /** The ASCII bytes of `bs`, as characters and in order. */
  function AsciiOf(bs: seq<byte>): string {
    if bs == [] then [] else (if IsAsciiByte(bs[0]) then [ByteChar(bs[0])] else []) + AsciiOf(bs[1..])
  }

  /** The ASCII characters of `s`, in order. */
  function AsciiPart(s: string): string {
    if s == [] then [] else (if IsAscii(s[0]) then [s[0]] else []) + AsciiPart(s[1..])
  }

  /**
   * What `String::from_utf8_lossy` guarantees and the model relies on: every
   * byte below 0x80 decodes to itself and nothing else decodes to an ASCII
   * character (a byte at or above 0x80 belongs to a multi-byte scalar or
   * becomes U+FFFD), so the ASCII characters of the text are the ASCII bytes
   * of the input, and the text is pure ASCII exactly when the input is.
   */
  ghost predicate DecodesLossily(bs: seq<byte>, s: string) {
    && AsciiPart(s) == AsciiOf(bs)
    && ((forall i :: 0 <= i < |bs| ==> IsAsciiByte(bs[i])) <==> (forall i :: 0 <= i < |s| ==> IsAscii(s[i])))
  }

  /**
   * `bytes_to_id`, computed on the raw bytes: the model keeps the ASCII bytes
   * and normalises them (`BytesToIdDecodes` shows this is `str_to_id` of the
   * decoded text).
   */
  function BytesToId(value: Option<seq<byte>>): (r: Option<string>)
    ensures r.None? <==> value.None?
    ensures r.Some? ==> IsId(r.value) && |r.value| <= |value.value|
  {
    match value
    case None => None
    case Some(bs) => AsciiOfLength(bs); Some(StrToId(AsciiOf(bs)))
  }

  lemma {:induction false} AsciiOfLength(bs: seq<byte>)
    ensures |AsciiOf(bs)| <= |bs|
  {
    if bs != [] {
      AsciiOfLength(bs[1..]);
    }
  }

  lemma {:induction false} AsciiOfConcat(a: seq<byte>, b: seq<byte>)
    ensures AsciiOf(a + b) == AsciiOf(a) + AsciiOf(b)
  {
    if a != [] {
      assert (a + b)[0] == a[0];
      assert (a + b)[1..] == a[1..] + b;
      AsciiOfConcat(a[1..], b);
    } else {
      assert a + b == b;
    }
  }

  /** Non-ASCII characters are never letters or digits, so only the ASCII part of a text matters. */
  lemma {:induction false} StrToIdOfAsciiPart(s: string)
    ensures StrToId(AsciiPart(s)) == StrToId(s)
  {
    if s != [] {
      assert s == [s[0]] + s[1..];
      StrToIdOfAsciiPart(s[1..]);
      StrToIdCons(s[0], s[1..]);
      StrToIdChar(s[0]);
      if IsAscii(s[0]) {
        assert AsciiPart(s) == [s[0]] + AsciiPart(s[1..]);
        StrToIdCons(s[0], AsciiPart(s[1..]));
      } else {
        assert AsciiPart(s) == AsciiPart(s[1..]);
        assert !IsAsciiAlnum(s[0]);
      }
    }
  }

  /** `bytes_to_id(Some(b)) == Some(str_to_id(from_utf8_lossy(b)))`, whatever the decoded text is. */
  lemma BytesToIdDecodes(bs: seq<byte>, decoded: string)
    requires DecodesLossily(bs, decoded)
    ensures BytesToId(Some(bs)) == Some(StrToId(decoded))
  {
    StrToIdOfAsciiPart(decoded);
  }

  const Quote: byte := 0x22

  /** The quotes the extractor leaves around a JSON string never reach the id. */
  lemma BytesToIdIgnoresQuotes(bs: seq<byte>)
    ensures BytesToId(Some([Quote] + bs + [Quote])) == BytesToId(Some(bs))
  {
    var a := AsciiOf(bs);
    AsciiOfConcat([Quote] + bs, [Quote]);
    AsciiOfConcat([Quote], bs);
    assert [Quote][1..] == [];
    assert AsciiOf([Quote]) == ['"'];
    assert AsciiOf([Quote] + bs + [Quote]) == ['"'] + a + ['"'];
    StrToIdConcat(['"'] + a, ['"']);
    StrToIdConcat(['"'], a);
    StrToIdChar('"');
    assert StrToId(['"']) == [];
    assert StrToId(['"'] + a + ['"']) == StrToId(a);
  }

  // ---------------------------------------------------------------------------
  // The end-type test
  // ---------------------------------------------------------------------------

  /** The bytes of `"forfeit"`, quotes included, as the extractor returns that JSON string. */
  const ForfeitBytes: seq<byte> := [0x22, 0x66, 0x6f, 0x72, 0x66, 0x65, 0x69, 0x74, 0x22]

  /** `is_forfeit`: the end type is present and decodes to `"forfeit"`, quotes included. */
  predicate IsForfeit(endType: Option<seq<byte>>) {
    endType == Some(ForfeitBytes)
  }

  lemma {:induction false} AsciiOfAllAscii(bs: seq<byte>)
    requires forall i :: 0 <= i < |bs| ==> IsAsciiByte(bs[i])
    ensures |AsciiOf(bs)| == |bs|
    ensures forall i :: 0 <= i < |bs| ==> AsciiOf(bs)[i] == ByteChar(bs[i])
  {
    if bs != [] {
      AsciiOfAllAscii(bs[1..]);
    }
  }

  lemma {:induction false} AsciiPartAllAscii(s: string)
    requires forall i :: 0 <= i < |s| ==> IsAscii(s[i])
    ensures AsciiPart(s) == s
  {
    if s != [] {
      AsciiPartAllAscii(s[1..]);
    }
  }

  const ForfeitText: string := "\"forfeit\""

  lemma ForfeitBytesSpellForfeit()
    ensures |ForfeitBytes| == |ForfeitText|
    ensures forall i :: 0 <= i < |ForfeitBytes| ==> IsAsciiByte(ForfeitBytes[i]) && ByteChar(ForfeitBytes[i]) == ForfeitText[i]
  {
    assert ForfeitText == ['"', 'f', 'o', 'r', 'f', 'e', 'i', 't', '"'];
  }

  /**
   * The source compares the lossily decoded text with `"forfeit"`; the model
   * compares the raw bytes. The two tests agree on every input.
   */
  lemma ForfeitTestOnBytes(bs: seq<byte>, decoded: string)
    requires DecodesLossily(bs, decoded)
    ensures decoded == ForfeitText <==> bs == ForfeitBytes
  {
    if bs == ForfeitBytes {
      ForfeitBytesDecode(bs, decoded);
    }
    if decoded == ForfeitText {
      ForfeitTextEncoded(bs, decoded);
    }
  }

  /** The nine bytes of `"forfeit"` decode to that text. */
  lemma ForfeitBytesDecode(bs: seq<byte>, decoded: string)
    requires DecodesLossily(bs, decoded) && bs == ForfeitBytes
    ensures decoded == ForfeitText
  {
    ForfeitBytesSpellForfeit();
    assert forall i :: 0 <= i < |decoded| ==> IsAscii(decoded[i]);
    AsciiPartAllAscii(decoded);
    AsciiOfAllAscii(bs);
    assert decoded == AsciiOf(bs);
  }

  /** Only the nine bytes of `"forfeit"` decode to that text. */
  lemma ForfeitTextEncoded(bs: seq<byte>, decoded: string)
    requires DecodesLossily(bs, decoded) && decoded == ForfeitText
    ensures bs == ForfeitBytes
  {
    ForfeitBytesSpellForfeit();
    assert forall i :: 0 <= i < |decoded| ==> IsAscii(decoded[i]);
    assert forall i :: 0 <= i < |bs| ==> IsAsciiByte(bs[i]);
    AsciiPartAllAscii(decoded);
    AsciiOfAllAscii(bs);
    assert AsciiOf(bs) == ForfeitText;
    assert forall i :: 0 <= i < |bs| ==> ByteChar(bs[i]) == ByteChar(ForfeitBytes[i]);
  }

  // ---------------------------------------------------------------------------
  // Room name: the file name with every ".log.json" removed
  // ---------------------------------------------------------------------------

  const LogSuffix: string := ".log.json"

  const UnknownFile: string := "unknown file"

  /** `pat` occurs somewhere in `s`. */
  predicate Occurs(pat: string, s: string) {
    exists i :: 0 <= i <= |s| && pat <= s[i..]
  }

  /**
   * `str::replace(pat, "")`: scanning left to right, every non-overlapping
   * occurrence of `pat` is deleted.
   */
  function RemoveAll(s: string, pat: string): (r: string)
    requires pat != []
    ensures |r| <= |s|
    decreases |s|
  {
    if s == [] then []
    else if pat <= s then RemoveAll(s[|pat|..], pat)
    else [s[0]] + RemoveAll(s[1..], pat)
  }

  /** A name without the pattern comes back unchanged. */
  lemma {:induction false} RemoveAllAbsent(s: string, pat: string)
    requires pat != [] && !Occurs(pat, s)
    ensures RemoveAll(s, pat) == s
  {
    if s != [] {
      assert s[0..] == s;
      assert !Occurs(pat, s[1..]) by {
        forall i | 0 <= i <= |s[1..]| ensures !(pat <= s[1..][i..]) {
          assert s[1..][i..] == s[i + 1..];
        }
      }
      RemoveAllAbsent(s[1..], pat);
    }
  }

  /** No proper suffix of ".log.json" is also a prefix of it. */
  lemma LogSuffixUnbordered(k: nat)
    requires 0 < k < |LogSuffix|
    ensures LogSuffix[k..] != LogSuffix[..|LogSuffix| - k]
  {
    if k == 4 {
      assert LogSuffix[k..][1] != LogSuffix[..|LogSuffix| - k][1];
    } else {
      assert LogSuffix[k..][0] != LogSuffix[..|LogSuffix| - k][0];
    }
  }

  /**
   * A log file named `<base>.log.json`, where `base` does not contain
   * ".log.json", gets the room name `base`.
   */
  lemma {:induction false} RemoveAllStripsSuffix(base: string)
    requires !Occurs(LogSuffix, base)
    ensures RemoveAll(base + LogSuffix, LogSuffix) == base
  {
    var s := base + LogSuffix;
    if base == [] {
      assert s == LogSuffix;
      assert s[|LogSuffix|..] == [];
    } else {
      assert base[0..] == base;
      assert !(LogSuffix <= s) by {
        if |base| >= |LogSuffix| {
          assert s[..|LogSuffix|] == base[..|LogSuffix|];
        } else if LogSuffix <= s {
          var k := |base|;
          assert LogSuffix[k..] == s[k..|LogSuffix|] == LogSuffix[..|LogSuffix| - k];
          LogSuffixUnbordered(k);
        }
      }
      assert s[1..] == base[1..] + LogSuffix;
      assert !Occurs(LogSuffix, base[1..]) by {
        forall i | 0 <= i <= |base[1..]| ensures !(LogSuffix <= base[1..][i..]) {
          assert base[1..][i..] == base[i + 1..];
        }
      }
      RemoveAllStripsSuffix(base[1..]);
    }
  }

  /** A name without a dot cannot contain ".log.json". */
  lemma NoDotNoSuffix(name: string)
    requires '.' !in name
    ensures !Occurs(LogSuffix, name)
  {
    forall i | 0 <= i <= |name| ensures !(LogSuffix <= name[i..]) {
      if i < |name| {
        assert name[i..][0] == name[i];
      }
    }
  }

  /**
   * `.log.json` is removed wherever it occurs, not only at the end: after a
   * stretch `a` free of it, an occurrence is deleted and the scan goes on
   * with what follows.
   */
  lemma {:induction false} RemoveAllSplit(a: string, b: string)
    requires !Occurs(LogSuffix, a)
    ensures RemoveAll(a + LogSuffix + b, LogSuffix) == a + RemoveAll(b, LogSuffix)
  {
    if a == [] {
      RemoveAllAtMatch(LogSuffix, b);
      assert [] + LogSuffix + b == LogSuffix + b;
    } else {
      NoSuffixInFront(a, b);
      NoSuffixInTail(a);
      RemoveAllSplit(a[1..], b);
      RemoveAllSplitStep(a, LogSuffix, b);
    }
  }

  /** The inductive step of `RemoveAllSplit`: the first character of `a` is kept. */
  lemma RemoveAllSplitStep(a: string, pat: string, b: string)
    requires pat != [] && a != [] && !(pat <= a + pat + b)
    requires RemoveAll(a[1..] + pat + b, pat) == a[1..] + RemoveAll(b, pat)
    ensures RemoveAll(a + pat + b, pat) == a + RemoveAll(b, pat)
  {
    assert (a + pat + b)[0] == a[0] && (a + pat + b)[1..] == a[1..] + pat + b;
    RemoveAllNoMatch(a + pat + b, pat);
    assert a == [a[0]] + a[1..];
  }

  /** An occurrence at the start is deleted and the scan goes on after it. */
  lemma RemoveAllAtMatch(pat: string, b: string)
    requires pat != []
    ensures RemoveAll(pat + b, pat) == RemoveAll(b, pat)
  {
    assert pat <= pat + b;
    assert (pat + b)[|pat|..] == b;
  }

  /** Where no occurrence starts, the first character is kept. */
  lemma RemoveAllNoMatch(s: string, pat: string)
    requires pat != [] && s != [] && !(pat <= s)
    ensures RemoveAll(s, pat) == [s[0]] + RemoveAll(s[1..], pat)
  {
  }

  /** A non-empty stretch free of `.log.json` in front of an occurrence hides it from the start. */
  lemma NoSuffixInFront(a: string, b: string)
    requires a != [] && !Occurs(LogSuffix, a)
    ensures !(LogSuffix <= a + LogSuffix + b)
  {
    var s := a + LogSuffix + b;
    assert a[0..] == a;
    if |a| >= |LogSuffix| {
      assert s[..|LogSuffix|] == a[..|LogSuffix|];
    } else if LogSuffix <= s {
      var k := |a|;
      assert LogSuffix[k..] == s[k..|LogSuffix|] == LogSuffix[..|LogSuffix| - k];
      LogSuffixUnbordered(k);
    }
  }

  /** Dropping the first character keeps a string free of `.log.json`. */
  lemma NoSuffixInTail(a: string)
    requires a != [] && !Occurs(LogSuffix, a)
    ensures !Occurs(LogSuffix, a[1..])
  {
    forall i | 0 <= i <= |a[1..]| ensures !(LogSuffix <= a[1..][i..]) {
      assert a[1..][i..] == a[i + 1..];
    }
  }

  lemma UnknownFileHasNoSuffix()
    ensures !Occurs(LogSuffix, UnknownFile)
  {
    assert '.' !in UnknownFile;
    NoDotNoSuffix(UnknownFile);
  }

  /** `room`: the file name (or "unknown file") with every ".log.json" removed. */
  function Room(file: FileName): (r: string)
    ensures !file.Utf8Name? ==> r == UnknownFile
    ensures file.Utf8Name? ==> |r| <= |file.name|
  {
    var name := match file
      case Utf8Name(n) => n
      case _ => UnknownFile;
    if file.Utf8Name? then RemoveAll(name, LogSuffix)
    else UnknownFileHasNoSuffix(); RemoveAllAbsent(name, LogSuffix); RemoveAll(name, LogSuffix)
  }

  /** A typical log file, `gen8ou-1234.log.json`, is reported as room `gen8ou-1234`. */
  lemma RoomOfLogFile(base: string)
    requires !Occurs(LogSuffix, base)
    ensures Room(Utf8Name(base + LogSuffix)) == base
  {
    RemoveAllStripsSuffix(base);
  }

  // ---------------------------------------------------------------------------
  // BattleSearcher and check_log
  // ---------------------------------------------------------------------------

  /** `BattleSearcher` without its extractor, which is not part of this model. */
  datatype Searcher = Searcher(userId: string, winsOnly: bool, forfeitsOnly: bool)

  /** `BattleSearcher::new`: the searched name is normalised once, up front. */
  function NewSearcher(username: string, winsOnly: bool, forfeitsOnly: bool): (s: Searcher)
    ensures s.userId == StrToId(username)
    ensures IsId(s.userId) && |s.userId| <= |username|
    ensures s.winsOnly == winsOnly && s.forfeitsOnly == forfeitsOnly
  {
    Searcher(StrToId(username), winsOnly, forfeitsOnly)
  }

  /** `win_str`: who won and how, or that nobody did. */
  function WinStr(winnerId: Option<string>, isForfeit: bool): string {
    match winnerId
    case Some(w) => w + " won " + (if isForfeit then "by forfeit" else "normally")
    case None => "there was no winner"
  }

  /** The line `check_log` prints for a reported battle. */
  function ReportLine(date: string, room: string, p1id: string, p2id: string, winStr: string): string {
    "(" + date + ") <<" + room + ">> " + p1id + " vs. " + p2id + " (" + winStr + ")"
  }

  /** The searched user took part in a battle whose players have these raw values. */
  predicate IsPlayer(s: Searcher, p1: Option<seq<byte>>, p2: Option<seq<byte>>) {
    BytesToId(p1) == Some(s.userId) || BytesToId(p2) == Some(s.userId)
  }

  /** The battle's winner is the searched user. */
  predicate SearchedUserWon(s: Searcher, winner: Option<seq<byte>>) {
    BytesToId(winner) == Some(s.userId)
  }

  /**
   * `check_log` after the extractor has run: an error for a malformed
   * extraction, `Ok(None)` when the battle is not reported, and
   * `Ok(Some(line))` with the printed line otherwise.
   */
  function CheckLog(s: Searcher, json: seq<Option<seq<byte>>>, file: FileName, date: string)
    : (r: Result<Option<string>, BattleSearchError>)
    ensures r.Err? <==> |json| != 4 || json[0].None? || json[1].None?
    ensures r.Err? ==> r.error.FaultyJSON?
    ensures r.Ok? && r.value.Some? ==> IsPlayer(s, json[0], json[1])
    ensures r.Ok? && r.value.Some? && s.winsOnly ==> SearchedUserWon(s, json[2])
    ensures r.Ok? && r.value.Some? && s.forfeitsOnly ==> IsForfeit(json[3])
  {
    if |json| != 4 then Err(FaultyJSON(FieldCount(|json|)))
    else
      match BytesToId(json[0])
      case None => Err(FaultyJSON(NoP1))
      case Some(p1id) =>
        match BytesToId(json[1])
        case None => Err(FaultyJSON(NoP2))
        case Some(p2id) =>
          if p1id != s.userId && p2id != s.userId then Ok(None)
          else
            var winnerId := BytesToId(json[2]);
            var searchedUserWon := winnerId == Some(s.userId);
            if !searchedUserWon && s.winsOnly then Ok(None)
            else
              var isForfeit := IsForfeit(json[3]);
              if !isForfeit && s.forfeitsOnly then Ok(None)
              else Ok(Some(ReportLine(date, Room(file), p1id, p2id, WinStr(winnerId, isForfeit))))
  }

  /**
   * The searched name and the players' names are compared as ids: a user
   * plays in a battle exactly when the id of one player's value is the id of
   * the name searched for, whatever case and punctuation either is written in.
   */
  lemma NewSearcherComparesIds(username: string, winsOnly: bool, forfeitsOnly: bool, p1: Option<seq<byte>>, p2: Option<seq<byte>>)
    ensures IsPlayer(NewSearcher(username, winsOnly, forfeitsOnly), p1, p2) <==>
      || (p1.Some? && StrToId(AsciiOf(p1.value)) == StrToId(username))
      || (p2.Some? && StrToId(AsciiOf(p2.value)) == StrToId(username))
  {
  }

  /** The extraction is well formed: four values, the two players present. */
  predicate WellFormed(json: seq<Option<seq<byte>>>) {
    |json| == 4 && json[0].Some? && json[1].Some?
  }

  /** The errors come in a fixed order: field count first, then p1, then p2. */
  lemma CheckLogErrorOrder(s: Searcher, json: seq<Option<seq<byte>>>, file: FileName, date: string)
    ensures |json| != 4 ==> CheckLog(s, json, file, date) == Err(FaultyJSON(FieldCount(|json|)))
    ensures |json| == 4 && json[0].None? ==> CheckLog(s, json, file, date) == Err(FaultyJSON(NoP1))
    ensures |json| == 4 && json[0].Some? && json[1].None? ==> CheckLog(s, json, file, date) == Err(FaultyJSON(NoP2))
  {
  }

  /** A battle is reported exactly when the user played, won if wins are asked for, and it was forfeited if forfeits are asked for. */
  lemma CheckLogReportsExactly(s: Searcher, json: seq<Option<seq<byte>>>, file: FileName, date: string)
    requires WellFormed(json)
    ensures CheckLog(s, json, file, date).Ok?
    ensures CheckLog(s, json, file, date).value.Some? <==>
      && IsPlayer(s, json[0], json[1])
      && (s.winsOnly ==> SearchedUserWon(s, json[2]))
      && (s.forfeitsOnly ==> IsForfeit(json[3]))
  {
  }

  /** A battle the searched user did not play in is never reported, whatever its winner and end type. */
  lemma NotAPlayerNeverReported(s: Searcher, json: seq<Option<seq<byte>>>, file: FileName, date: string)
    requires WellFormed(json) && !IsPlayer(s, json[0], json[1])
    ensures CheckLog(s, json, file, date) == Ok(None)
  {
  }

  /**
   * The printed line: `(date) <<room>> p1 vs. p2 (outcome)`, where the outcome
   * names the winner's id and whether the battle was forfeited, or says that
   * nobody won. Whether the win was by forfeit does not depend on who won.
   */
  lemma CheckLogLine(s: Searcher, json: seq<Option<seq<byte>>>, file: FileName, date: string)
    requires CheckLog(s, json, file, date).Ok? && CheckLog(s, json, file, date).value.Some?
    ensures
      var how := if IsForfeit(json[3]) then "by forfeit" else "normally";
      var outcome := if json[2].Some? then BytesToId(json[2]).value + " won " + how else "there was no winner";
      CheckLog(s, json, file, date).value.value ==
        "(" + date + ") <<" + Room(file) + ">> " + BytesToId(json[0]).value + " vs. " + BytesToId(json[1]).value
        + " (" + outcome + ")"
  {
  }

  /** Without filters, every battle the user played in is reported. */
  lemma UnfilteredReportsEveryBattle(s: Searcher, json: seq<Option<seq<byte>>>, file: FileName, date: string)
    requires WellFormed(json) && IsPlayer(s, json[0], json[1]) && !s.winsOnly && !s.forfeitsOnly
    ensures CheckLog(s, json, file, date).Ok? && CheckLog(s, json, file, date).value.Some?
  {
  }
}
