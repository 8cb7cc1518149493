/**
 * The configuration the script reads from its environment at start-up, and the
 * allow-list test `is_allowed_chat`.
 */
module Config {
  import opened Wrappers
  import opened Text

  /** The raw environment variables the script reads: `None` when a variable is unset. */
  datatype Environment = Environment(
    botToken: Option<string>,
    chatId: Option<string>,
    msisdnList: Option<string>,
    retries: int,                  // RETRIES after `int(...)`, taken as given
    tz: Option<string>,
    schedules: Option<string>,
    allowAnyChat: Option<string>)

  /** The module-level constants the rest of the script reads. */
  datatype Config = Config(
    botToken: string,
    chatIds: seq<string>,
    msisdns: seq<string>,
    retries: int,
    tz: string,
    schedules: seq<string>,
    allowAnyChat: bool)

  /** "10 0 * * *,30 5 * * *,30 11 * * *,30 17 * * *,30 22 * * *" */
  const DefaultSchedules := "10 0 * * *" + "," + "30 5 * * *" + "," + "30 11 * * *" + ","
                          + "30 17 * * *" + "," + "30 22 * * *"
  const DefaultTz := "Asia/Jakarta"

  /** What a list entry looks like after parsing: non-empty, stripped, comma-free. */
  predicate IsEntry(x: string) {
    x != "" && NoEdgeSpace(x) && ',' !in x
  }

  /** `[x.strip() for x in pieces if x.strip()]`. */
  function CleanPieces(pieces: seq<string>): (r: seq<string>)
    ensures |r| <= |pieces|
    ensures forall i :: 0 <= i < |r| ==> NoEdgeSpace(r[i]) && r[i] != ""
  {
    if pieces == [] then []
    else
      var x := Strip(pieces[0]);
      (if x != "" then [x] else []) + CleanPieces(pieces[1..])
  }

  lemma {:induction false} CleanPiecesCommaFree(pieces: seq<string>)
    requires forall i :: 0 <= i < |pieces| ==> ',' !in pieces[i]
    ensures forall i :: 0 <= i < |CleanPieces(pieces)| ==> ',' !in CleanPieces(pieces)[i]
  {
    if pieces != [] {
      CleanPiecesCommaFree(pieces[1..]);
      var k := StripRemovesOnlySpace(pieces[0]);
      var x := Strip(pieces[0]);
      assert forall j :: 0 <= j < |x| ==> x[j] == pieces[0][k + j];
    }
  }

  /** Cleaning works piece by piece: the cleaned list of two stretches is the two cleaned lists, in order. */
  lemma {:induction false} CleanPiecesAppend(a: seq<string>, b: seq<string>)
    ensures CleanPieces(a + b) == CleanPieces(a) + CleanPieces(b)
  {
    if a == [] {
      assert a + b == b;
    } else {
      assert (a + b)[0] == a[0];
      assert (a + b)[1..] == a[1..] + b;
      CleanPiecesAppend(a[1..], b);
    }
  }

  /** One piece is kept in stripped form, or dropped when it is blank. */
  lemma CleanPiecesSingle(p: string)
    ensures CleanPieces([p]) == (if Strip(p) == "" then [] else [Strip(p)])
  {
    assert [p][1..] == [];
  }

  /** `x` is the stripped form of one of `pieces` and is not empty. */
  predicate StrippedPiece(x: string, pieces: seq<string>) {
    x != "" && exists i :: 0 <= i < |pieces| && Strip(pieces[i]) == x
  }

  /** The entries are exactly the stripped forms of the pieces that are not blank. */
  lemma {:induction false} CleanPiecesMembers(pieces: seq<string>)
    ensures forall x :: x in CleanPieces(pieces) <==> StrippedPiece(x, pieces)
  {
    if pieces != [] {
      CleanPiecesMembers(pieces[1..]);
      var head := Strip(pieces[0]);
      assert CleanPieces(pieces) == (if head != "" then [head] else []) + CleanPieces(pieces[1..]);
      forall x
        ensures x in CleanPieces(pieces) <==> StrippedPiece(x, pieces)
      {
        if StrippedPiece(x, pieces) {
          var i :| 0 <= i < |pieces| && Strip(pieces[i]) == x;
          if i > 0 {
            assert pieces[1..][i - 1] == pieces[i];
          }
        }
        if x in CleanPieces(pieces[1..]) {
          var j :| 0 <= j < |pieces[1..]| && Strip(pieces[1..][j]) == x;
          assert pieces[j + 1] == pieces[1..][j];
        }
      }
    }
  }

  /** A comma-separated variable split into entries: CHAT_ID, MSISDN_LIST and SCHEDULES. */
  function ParseList(raw: string): (r: seq<string>)
    ensures forall i :: 0 <= i < |r| ==> IsEntry(r[i])
  {
    CleanPiecesCommaFree(SplitOn(raw, ','));
    CleanPieces(SplitOn(raw, ','))
  }

  lemma {:induction false} CleanPiecesOfEntries(xs: seq<string>)
    requires forall i :: 0 <= i < |xs| ==> IsEntry(xs[i])
    ensures CleanPieces(xs) == xs
  {
    if xs != [] {
      CleanPiecesOfEntries(xs[1..]);
      assert IsEntry(xs[0]);
      assert Strip(xs[0]) == xs[0];
      assert CleanPieces(xs) == [xs[0]] + CleanPieces(xs[1..]);
      assert [xs[0]] + xs[1..] == xs;
    }
  }

  /** Entries joined with commas parse back to themselves: parsing loses nothing but blanks. */
  lemma ParseListJoin(xs: seq<string>)
    requires forall i :: 0 <= i < |xs| ==> IsEntry(xs[i])
    ensures ParseList(Join(xs, ',')) == xs
  {
    if xs == [] {
      ParseEmpty();
    } else {
      var raw := Join(xs, ',');
      forall i | 0 <= i < |xs|
        ensures ',' !in xs[i]
      {
        assert IsEntry(xs[i]);
      }
      SplitOnJoin(xs, ',');
      ParseOfEntries(raw, xs);
    }
  }

  /** A value that splits into entries parses to those entries. */
  lemma ParseOfEntries(raw: string, xs: seq<string>)
    requires SplitOn(raw, ',') == xs
    requires forall i :: 0 <= i < |xs| ==> IsEntry(xs[i])
    ensures ParseList(raw) == xs
  {
    CleanPiecesOfEntries(xs);
  }

  /** The entries of a variable are exactly the stripped forms of its comma pieces that are not blank. */
  lemma ParseListMembers(raw: string)
    ensures forall x :: x in ParseList(raw) <==> StrippedPiece(x, SplitOn(raw, ','))
  {
    CleanPiecesMembers(SplitOn(raw, ','));
  }

  /** The comma pieces of the example text. */
  lemma ExamplePieces()
    ensures SplitOn(" a , ,b", ',') == [" a ", " ", "b"]
  {
    var xs := [" a ", " ", "b"];
    assert Join(xs, ',') == " a , ,b" by {
      assert xs[2..] == ["b"] && xs[1..] == [xs[1]] + xs[2..];
      JoinCons(xs[1], xs[2..], ',');
      JoinCons(xs[0], xs[1..], ',');
    }
    SplitOnJoin(xs, ',');
  }

  /** The stripped forms of the example pieces. */
  lemma ExampleStrips()
    ensures Strip(" a ") == "a" && Strip(" ") == "" && Strip("b") == "b"
  {
    AsciiSpaces();
    assert " a "[1..] == "a ";
    assert TrimLeft(" a ") == "a ";
    assert "a "[..1] == "a";
    assert " "[1..] == "";
  }

  /** Padding is stripped and a blank piece in the middle is dropped. */
  lemma ParseListExample()
    ensures ParseList(" a , ,b") == ["a", "b"]
  {
    var xs := [" a ", " ", "b"];
    ExamplePieces();
    ExampleStrips();
    assert xs == [xs[0]] + ([xs[1]] + [xs[2]]);
    CleanPiecesAppend([xs[0]], [xs[1]] + [xs[2]]);
    CleanPiecesAppend([xs[1]], [xs[2]]);
    CleanPiecesSingle(xs[0]);
    CleanPiecesSingle(xs[1]);
    CleanPiecesSingle(xs[2]);
  }

  /** An unset or empty variable gives no entries. */
  lemma ParseEmpty()
    ensures ParseList("") == []
  {
    assert SplitOn("", ',') == [""];
    assert Strip("") == "";
  }

  /** The script's start-up reading of its environment (lines 28-37). */
  function ConfigFromEnv(env: Environment): (cfg: Config)
    ensures forall i :: 0 <= i < |cfg.chatIds| ==> IsEntry(cfg.chatIds[i])
    ensures forall i :: 0 <= i < |cfg.msisdns| ==> IsEntry(cfg.msisdns[i])
    ensures forall i :: 0 <= i < |cfg.schedules| ==> IsEntry(cfg.schedules[i])
    ensures NoEdgeSpace(cfg.botToken)
    ensures cfg.allowAnyChat <==> env.allowAnyChat == Some("1")
  {
    var rawSchedules := env.schedules.GetOr(DefaultSchedules);
    Config(
      Strip(env.botToken.GetOr("")),
      ParseList(env.chatId.GetOr("")),
      ParseList(env.msisdnList.GetOr("")),
      env.retries,
      env.tz.GetOr(DefaultTz),
      ParseList(if rawSchedules == "" then DefaultSchedules else rawSchedules),
      env.allowAnyChat == Some("1"))
  }

  /** The entries of the default SCHEDULES value. */
  const DefaultScheduleEntries: seq<string> :=
    ["10 0 * * *", "30 5 * * *", "30 11 * * *", "30 17 * * *", "30 22 * * *"]

  lemma DefaultSchedulesJoined()
    ensures DefaultSchedules == Join(DefaultScheduleEntries, ',')
  {
    var xs := DefaultScheduleEntries;
    JoinCons(xs[3], xs[4..], ',');
    JoinCons(xs[2], xs[3..], ',');
    JoinCons(xs[1], xs[2..], ',');
    JoinCons(xs[0], xs[1..], ',');
    assert xs[4..] == [xs[4]] && xs[3..] == [xs[3]] + xs[4..] && xs[2..] == [xs[2]] + xs[3..];
    assert xs[1..] == [xs[1]] + xs[2..] && xs == [xs[0]] + xs[1..];
  }

  lemma DefaultEntriesAreEntries()
    ensures forall i :: 0 <= i < |DefaultScheduleEntries| ==> IsEntry(DefaultScheduleEntries[i])
  {
    AsciiSpaces();
    assert DefaultScheduleEntries[0] == ['1', '0', ' ', '0', ' ', '*', ' ', '*', ' ', '*'];
    assert DefaultScheduleEntries[1] == ['3', '0', ' ', '5', ' ', '*', ' ', '*', ' ', '*'];
    assert DefaultScheduleEntries[2] == ['3', '0', ' ', '1', '1', ' ', '*', ' ', '*', ' ', '*'];
    assert DefaultScheduleEntries[3] == ['3', '0', ' ', '1', '7', ' ', '*', ' ', '*', ' ', '*'];
    assert DefaultScheduleEntries[4] == ['3', '0', ' ', '2', '2', ' ', '*', ' ', '*', ' ', '*'];
  }

  /** With SCHEDULES unset or empty, the five default schedule lines are used. */
  lemma DefaultScheduleList(env: Environment)
    requires env.schedules == None || env.schedules == Some("")
    ensures ConfigFromEnv(env).schedules == DefaultScheduleEntries
  {
    DefaultSchedulesJoined();
    DefaultEntriesAreEntries();
    ParseListJoin(DefaultScheduleEntries);
  }

  /** `is_allowed_chat`: every chat in "allow any" mode, else those whose `str(id)` is listed. */
  predicate IsAllowedChat(cfg: Config, chatId: int) {
    cfg.allowAnyChat || IntToDecimal(chatId) in cfg.chatIds
  }

  /** With a list that names the chats `ids`, exactly those chats are allowed. */
  lemma AllowListAdmitsExactly(cfg: Config, ids: seq<int>, chatId: int)
    requires !cfg.allowAnyChat
    requires |cfg.chatIds| == |ids|
    requires forall i :: 0 <= i < |ids| ==> cfg.chatIds[i] == IntToDecimal(ids[i])
    ensures IsAllowedChat(cfg, chatId) <==> chatId in ids
  {
    if IsAllowedChat(cfg, chatId) {
      var k :| 0 <= k < |cfg.chatIds| && cfg.chatIds[k] == IntToDecimal(chatId);
      IntToDecimalInjective(chatId, ids[k]);
    }
    if chatId in ids {
      var k :| 0 <= k < |ids| && ids[k] == chatId;
      assert cfg.chatIds[k] == IntToDecimal(chatId);
    }
  }
}
