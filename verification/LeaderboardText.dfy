/**
 The text that the leaderboard is saved as, and how it is read back, with the rules
 of %s, %d and white space in section 7.21.6.2 of ISO C11.
 */
module LeaderboardText {
  import opened Consts
  import opened Ranking

  // ---------------------------------------------------------------- printing

  function DigitChar(d: nat): char
    requires d < 10
  {
    '0' + d as char
  }

  function PrintNat(n: nat): (t: string)
    ensures t != "" && forall i :: 0 <= i < |t| ==> IsDigit(t[i])
  {
    if n < 10 then [DigitChar(n)] else PrintNat(n / 10) + [DigitChar(n % 10)]
  }

  function PrintInt(n: int): string {
    if n < 0 then "-" + PrintNat(-n) else PrintNat(n)
  }

  function DigitValue(c: char): nat
    requires IsDigit(c)
  {
    c as int - '0' as int
  }

  function EntryText(e: Entry): string {
    e.name + "\n" + PrintInt(e.score) + "\n" + e.date + "\n\n"
  }

  function BoardText(board: seq<Entry>): string {
    if board == [] then "" else EntryText(board[0]) + BoardText(board[1..])
  }

  lemma SaveOneMore(text: string, board: seq<Entry>, i: nat)
    requires i < |board|
    ensures text + BoardText(board[i..]) == (text + EntryText(board[i])) + BoardText(board[i + 1..])
  {
    assert board[i..][0] == board[i] && board[i..][1..] == board[i + 1..];
    assert text + (EntryText(board[i]) + BoardText(board[i + 1..]))
        == (text + EntryText(board[i])) + BoardText(board[i + 1..]);
  }

  // ---------------------------------------------------------------- scanning

  predicate IsSpace(c: char) {
    c == ' ' || 9 <= c as int <= 13
  }

  function SkipSpace(t: string): (r: string)
    ensures r != "" ==> !IsSpace(r[0])
    ensures |r| <= |t|
  {
    if t != "" && IsSpace(t[0]) then SkipSpace(t[1..]) else t
  }

  /** The length of the word at the start of the text. */
  function WordLength(t: string): (n: nat)
    ensures n <= |t| && forall i :: 0 <= i < n ==> !IsSpace(t[i])
    ensures n < |t| ==> IsSpace(t[n])
  {
    if t == "" || IsSpace(t[0]) then 0 else 1 + WordLength(t[1..])
  }

  function DigitsLength(t: string): (n: nat)
    ensures n <= |t| && forall i :: 0 <= i < n ==> IsDigit(t[i])
    ensures n < |t| ==> !IsDigit(t[n])
  {
    if t == "" || !IsDigit(t[0]) then 0 else 1 + DigitsLength(t[1..])
  }

  function NatValue(t: string): nat
    requires forall i :: 0 <= i < |t| ==> IsDigit(t[i])
  {
    if t == "" then 0 else 10 * NatValue(t[..|t| - 1]) + DigitValue(t[|t| - 1])
  }

  /** "%s" and a newline: the word, or the old buffer at the end of the text; and the rest. */
  function ScanWord(t: string, buffer: string): (string, string) {
    var u := SkipSpace(t);
    if u == "" then (buffer, u) else (u[..WordLength(u)], SkipSpace(u[WordLength(u)..]))
  }

  function ScanDigits(t: string, negative: bool, value: int): (int, string) {
    var n := DigitsLength(t);
    if n == 0 then (value, t)
    else ((if negative then 0 - NatValue(t[..n]) else NatValue(t[..n])), SkipSpace(t[n..]))
  }

  /** "%d" and a newline: the number, or the old value if there is none; and the rest. */
  function ScanInt(t: string, value: int): (int, string) {
    var u := SkipSpace(t);
    if u != "" && (u[0] == '-' || u[0] == '+') then ScanDigits(u[1..], u[0] == '-', value)
    else ScanDigits(u, false, value)
  }

  /** One entry read over the old entry `e`; `name` and `date` are the reader's buffers. */
  function ScanEntry(t: string, e: Entry, name: string, date: string): (Entry, string) {
    var (name', t1) := ScanWord(t, name);
    var (score', t2) := ScanInt(t1, e.score);
    var (date', t3) := ScanWord(t2, date);
    (Entry(date', name', score'), t3)
  }

  /** The board read over the board `board0`. */
  function Load(t: string, board0: seq<Entry>, name: string, date: string): (r: seq<Entry>)
    ensures |r| == |board0|
    decreases |board0|
  {
    if board0 == [] then []
    else
      var (e, rest) := ScanEntry(t, board0[0], name, date);
      [e] + Load(rest, board0[1..], e.name, e.date)
  }

  lemma LoadOneMore(t: string, board0: seq<Entry>, i: nat, name: string, date: string, done: seq<Entry>)
    requires i < |board0|
    ensures var (e, rest) := ScanEntry(t, board0[i], name, date);
            done + Load(t, board0[i..], name, date) == done + [e] + Load(rest, board0[i + 1..], e.name, e.date)
  {
    var (e, rest) := ScanEntry(t, board0[i], name, date);
    assert board0[i..][0] == board0[i] && board0[i..][1..] == board0[i + 1..];
    assert Load(t, board0[i..], name, date) == [e] + Load(rest, board0[i + 1..], e.name, e.date);
  }

  /** One turn of the reading loop turns the board `before` into `after`. */
  lemma LoadStep(board0: seq<Entry>, done: seq<Entry>, t: string, name: string, date: string,
                 before: seq<Entry>, after: seq<Entry>, rest: string)
    requires |done| < |board0| && before == done + board0[|done|..]
    requires var r := ScanEntry(t, before[|done|], name, date); after == before[|done| := r.0] && rest == r.1
    ensures var e := after[|done|];
            && after == (done + [e]) + board0[|done| + 1..]
            && done + Load(t, board0[|done|..], name, date)
               == (done + [e]) + Load(rest, board0[|done| + 1..], e.name, e.date)
  {
    LoadOneMore(t, board0, |done|, name, date, done);
  }

  // ---------------------------------------------------------------- one field

  /** Not empty and free of white space. */
  predicate IsWord(w: string) {
    w != "" && forall i :: 0 <= i < |w| ==> !IsSpace(w[i])
  }

  lemma {:induction false} SkipSpaceOnce(t: string)
    ensures SkipSpace(SkipSpace(t)) == SkipSpace(t)
    decreases |t|
  {
    if t != "" && IsSpace(t[0]) {
      SkipSpaceOnce(t[1..]);
    }
  }

  lemma {:induction false} SomethingLeft(t: string, i: nat)
    requires i < |t| && !IsSpace(t[i])
    ensures SkipSpace(t) != ""
    decreases |t|
  {
    if IsSpace(t[0]) {
      SomethingLeft(t[1..], i - 1);
    }
  }

  lemma {:induction false} WordEnds(w: string, t: string)
    requires (forall i :: 0 <= i < |w| ==> !IsSpace(w[i])) && t != "" && IsSpace(t[0])
    ensures WordLength(w + t) == |w|
    decreases |w|
  {
    if w == "" {
      assert w + t == t;
    } else {
      assert (w + t)[1..] == w[1..] + t;
      WordEnds(w[1..], t);
    }
  }

  lemma {:induction false} DigitsEnd(w: string, t: string)
    requires (forall i :: 0 <= i < |w| ==> IsDigit(w[i])) && t != "" && !IsDigit(t[0])
    ensures DigitsLength(w + t) == |w|
    decreases |w|
  {
    if w == "" {
      assert w + t == t;
    } else {
      assert (w + t)[1..] == w[1..] + t;
      DigitsEnd(w[1..], t);
    }
  }

  lemma {:induction false} PrintedNatValue(n: nat)
    ensures NatValue(PrintNat(n)) == n
  {
    if n >= 10 {
      PrintedNatValue(n / 10);
      assert PrintNat(n)[..|PrintNat(n)| - 1] == PrintNat(n / 10);
    }
  }

  /** A word followed by white space is read back. */
  lemma WordReadBack(w: string, t: string, buffer: string)
    requires IsWord(w) && t != "" && IsSpace(t[0])
    ensures ScanWord(w + t, buffer) == (w, SkipSpace(t))
  {
    WordEnds(w, t);
    assert (w + t)[0] == w[0];
    assert (w + t)[..|w|] == w && (w + t)[|w|..] == t;
  }

  lemma DigitsReadBack(digits: string, t: string, negative: bool, value: int)
    requires digits != "" && (forall i :: 0 <= i < |digits| ==> IsDigit(digits[i]))
    requires t != "" && IsSpace(t[0])
    ensures ScanDigits(digits + t, negative, value)
            == (if negative then 0 - NatValue(digits) else NatValue(digits), SkipSpace(t))
  {
    var u := digits + t;
    DigitsEnd(digits, t);
    assert u[..|digits|] == digits && u[|digits|..] == t;
  }

  lemma SignRead(u: string, value: int)
    requires u != "" && !IsSpace(u[0])
    ensures SkipSpace(u) == u
    ensures ScanInt(u, value) == if u[0] == '-' || u[0] == '+' then ScanDigits(u[1..], u[0] == '-', value)
                                 else ScanDigits(u, false, value)
  {
  }

  lemma SignedReadBack(digits: string, t: string, negative: bool, value: int)
    requires digits != "" && (forall i :: 0 <= i < |digits| ==> IsDigit(digits[i]))
    requires t != "" && IsSpace(t[0])
    ensures var u := (if negative then "-" + digits else digits) + t;
            && ScanInt(u, value) == (if negative then 0 - NatValue(digits) else NatValue(digits), SkipSpace(t))
            && SkipSpace(u) == u
    ensures !negative ==> ScanInt("+" + digits + t, value) == (NatValue(digits), SkipSpace(t))
  {
    DigitsReadBack(digits, t, negative, value);
    var u := (if negative then "-" + digits else digits) + t;
    if negative {
      assert u[0] == '-' && u[1..] == digits + t;
    } else {
      assert u[0] == digits[0] && IsDigit(u[0]);
      var plus := "+" + digits + t;
      assert plus[0] == '+' && plus[1..] == digits + t;
      SignRead(plus, value);
    }
    SignRead(u, value);
  }

  /** A printed number followed by white space is read back. */
  lemma IntReadBack(n: int, t: string, value: int)
    requires t != "" && IsSpace(t[0])
    ensures ScanInt(PrintInt(n) + t, value) == (n, SkipSpace(t))
    ensures SkipSpace(PrintInt(n) + t) == PrintInt(n) + t
  {
    var m: nat := if n < 0 then -n else n;
    SignedReadBack(PrintNat(m), t, n < 0, value);
    PrintedNatValue(m);
  }

  /** What %s stores is always a word. */
  lemma ScannedIsWord(t: string, buffer: string)
    requires SkipSpace(t) != "" || IsWord(buffer)
    ensures IsWord(ScanWord(t, buffer).0)
  {
  }

  // ---------------------------------------------------------------- the round trip

  /** The score of an entry is always there to be read, whatever its name and date. */
  lemma EntryIsVisible(e: Entry, t: string)
    ensures SkipSpace(EntryText(e) + t) != ""
  {
    var u := EntryText(e) + t;
    assert u[|e.name| + 1] == PrintInt(e.score)[0];
    SomethingLeft(u, |e.name| + 1);
  }

  lemma EntryTextParts(e: Entry, t: string)
    ensures EntryText(e) + t == e.name + ("\n" + (PrintInt(e.score) + ("\n" + e.date + "\n\n" + t)))
  {
  }

  /** Reading the name and the score of an entry with a good name. */
  lemma NameAndScoreReadBack(e: Entry, t: string, name: string, value: int)
    requires IsWord(e.name)
    ensures var (name', t1) := ScanWord(EntryText(e) + t, name);
            name' == e.name && ScanInt(t1, value) == (e.score, SkipSpace("\n" + e.date + "\n\n" + t))
  {
    var t0 := "\n" + e.date + "\n\n" + t;
    var t1 := "\n" + (PrintInt(e.score) + t0);
    EntryTextParts(e, t);
    WordReadBack(e.name, t1, name);
    IntReadBack(e.score, t0, value);
    assert t1[0] == '\n' && t1[1..] == PrintInt(e.score) + t0;
    SkipSpaceOnce(t1);
  }

  lemma LoadAfterSpace(t: string, board0: seq<Entry>, name: string, date: string)
    ensures Load(SkipSpace(t), board0, name, date) == Load(t, board0, name, date)
  {
    SkipSpaceOnce(t);
  }

  /** The first date, after its name and score. */
  lemma DateReadBack(e: Entry, t: string, date: string)
    requires IsWord(e.date)
    ensures ScanWord(SkipSpace("\n" + e.date + "\n\n" + t), date) == (e.date, SkipSpace("\n\n" + t))
    ensures SkipSpace("\n\n" + t) == SkipSpace(t)
  {
    var u := e.date + ("\n\n" + t);
    assert "\n" + e.date + "\n\n" + t == "\n" + u && ("\n" + u)[1..] == u && u[0] == e.date[0];
    WordReadBack(e.date, "\n\n" + t, date);
    assert ("\n\n" + t)[1..] == "\n" + t && ("\n" + t)[1..] == t;
  }

  predicate AllWords(board: seq<Entry>) {
    forall i :: 0 <= i < |board| ==> IsWord(board[i].name) && IsWord(board[i].date)
  }

  lemma BadDateIsNotReadBack(board: seq<Entry>, t: string, date: string)
    requires board != [] && t == BoardText(board[1..]) && (IsWord(date) || |board| != 1)
    ensures IsWord(ScanWord(SkipSpace("\n" + board[0].date + "\n\n" + t), date).0)
  {
    var u := "\n" + board[0].date + "\n\n" + t;
    SkipSpaceOnce(u);
    if |board| > 1 {
      var e, rest := board[1], BoardText(board[2..]);
      assert board[1..][1..] == board[2..];
      assert t == EntryText(e) + rest;
      var i := |board[0].date| + 3 + |e.name| + 1;
      assert u[i] == PrintInt(e.score)[0];
      SomethingLeft(u, i);
    }
    ScannedIsWord(SkipSpace(u), date);
  }

  /** An entry of two words is read back, and the rest is read from the rest. */
  lemma EntryReadBack(e: Entry, t: string, board0: seq<Entry>, name: string, date: string)
    requires IsWord(e.name) && IsWord(e.date) && board0 != []
    ensures Load(EntryText(e) + t, board0, name, date) == [e] + Load(t, board0[1..], e.name, e.date)
  {
    NameAndScoreReadBack(e, t, name, board0[0].score);
    DateReadBack(e, t, date);
    LoadAfterSpace(t, board0[1..], e.name, e.date);
  }

  /** A name or date that is not a word is not read back. */
  lemma BadEntryIsNotReadBack(board: seq<Entry>, board0: seq<Entry>, name: string, date: string)
    requires board != [] && |board0| == |board| && (IsWord(date) || |board| != 1)
    requires !IsWord(board[0].name) || !IsWord(board[0].date)
    ensures Load(BoardText(board), board0, name, date)[0] != board[0]
  {
    var e, t := board[0], BoardText(board[1..]);
    EntryIsVisible(e, t);
    ScannedIsWord(EntryText(e) + t, name);
    if IsWord(e.name) {
      NameAndScoreReadBack(e, t, name, board0[0].score);
      BadDateIsNotReadBack(board, t, date);
    }
  }

  lemma ConsEquals(r: seq<Entry>, loaded: seq<Entry>, board: seq<Entry>)
    requires board != [] && IsWord(board[0].name) && IsWord(board[0].date)
    requires r == [board[0]] + loaded
    ensures r == board <==> loaded == board[1..]
    ensures AllWords(board) <==> AllWords(board[1..])
  {
    assert r[1..] == loaded;
    assert board == [board[0]] + board[1..];
    if AllWords(board[1..]) {
      forall i | 0 <= i < |board| ensures IsWord(board[i].name) && IsWord(board[i].date) {
        assert i > 0 ==> board[i] == board[1..][i - 1];
      }
    }
  }

  /** Reading undoes saving exactly when no name and no date is empty or has white space. */
  lemma {:induction false} LoadUndoesSave(board: seq<Entry>, board0: seq<Entry>, name: string, date: string)
    requires |board0| == |board| && (IsWord(date) || |board| != 1)
    ensures Load(BoardText(board), board0, name, date) == board <==> AllWords(board)
    decreases |board|
  {
    if board != [] {
      var e, rest := board[0], board[1..];
      if IsWord(e.name) && IsWord(e.date) {
        var loaded := Load(BoardText(rest), board0[1..], e.name, e.date);
        assert Load(BoardText(board), board0, name, date) == [e] + loaded by {
          EntryReadBack(e, BoardText(rest), board0, name, date);
        }
        LoadUndoesSave(rest, board0[1..], e.name, e.date);
        ConsEquals([e] + loaded, loaded, board);
      } else {
        BadEntryIsNotReadBack(board, board0, name, date);
      }
    }
  }

  // ---------------------------------------------------------------- dates

  function DateText(day: nat, month: nat, year: nat): string {
    PrintNat(day) + "/" + PrintNat(month) + "/" + PrintNat(year + 2000)
  }

  lemma {:induction false} PrintNatLength(n: nat, k: nat)
    requires k >= 1 && n < Pow10(k) && (k == 1 || n >= Pow10(k - 1))
    ensures |PrintNat(n)| == k
  {
    if n >= 10 {
      PrintNatLength(n / 10, k - 1);
    }
  }

  /** The date written next to a score is a word, and fits its field. */
  lemma DateIsWord(day: nat, month: nat, year: nat)
    requires day < 100 && month < 100 && year < 100
    ensures IsWord(DateText(day, month, year)) && |DateText(day, month, year)| <= 10
    ensures |DateText(day, month, year)| == 6 + |PrintNat(day)| + |PrintNat(month)|
    ensures |PrintNat(day)| == (if day < 10 then 1 else 2) && |PrintNat(month)| == (if month < 10 then 1 else 2)
  {
    assert Pow10(0) == 1 && Pow10(1) == 10 && Pow10(2) == 100;
    assert Pow10(3) == 1000 && Pow10(4) == 10000;
    PrintNatLength(day, if day < 10 then 1 else 2);
    PrintNatLength(month, if month < 10 then 1 else 2);
    PrintNatLength(year + 2000, 4);
  }

  /** The bytes that getDate allocates. */
  const DATE_BUFFER := 10

  /** The text and the zero byte after it fit that buffer unless day and month both have two digits. */
  lemma DateFitsIff(day: nat, month: nat, year: nat)
    requires day < 100 && month < 100 && year < 100
    ensures |DateText(day, month, year)| + 1 <= DATE_BUFFER <==> day < 10 || month < 10
  {
    DateIsWord(day, month, year);
  }

  // ---------------------------------------------------------------- examples

  lemma PrintedNumbers()
    ensures PrintNat(12345) == "12345" && PrintNat(67890) == "67890" && PrintInt(-7) == "-7"
  {
    assert PrintNat(12) == "12" && PrintNat(1234) == "1234";
    assert PrintNat(67) == "67" && PrintNat(6789) == "6789";
  }

  lemma PrintedDate()
    ensures DateText(5, 12, 20) == "5/12/2020"
  {
    assert PrintNat(20) == "20" && PrintNat(202) == "202" && PrintNat(2020) == "2020";
    assert PrintNat(5) == "5" && PrintNat(12) == "12";
  }

  /** The three lines of an entry, and an empty one. */
  lemma PrintedEntry()
    ensures EntryText(Entry("5/12/2020", "ana", 7)) == "ana\n7\n5/12/2020\n\n"
  {
    assert PrintNat(7) == "7";
  }

  /** What is not a number leaves the score as it was, and the end of the text leaves everything. */
  lemma NothingToRead(t: string, value: int, buffer: string)
    ensures SkipSpace(t) == "" ==> ScanWord(t, buffer) == (buffer, "") && ScanInt(t, value) == (value, "")
    ensures var u := SkipSpace(t);
            u != "" && !IsDigit(u[0]) && u[0] != '-' && u[0] != '+' ==> ScanInt(t, value) == (value, u)
  {
  }

  lemma WhiteSpace(c: char)
    ensures IsSpace(c) <==> c == ' ' || c == '\t' || c == '\n' || c == '\r' || c as int == 11 || c as int == 12
  {
  }
}
