/** The centred text box (proj/vc.c) and the entry of the number of rounds (proj/number_of_rounds.c). */
module TextBox {
  import opened Consts
  import opened LeaderboardText

  const MAX_TEXT_BOX_SIZE := 20

  /** The image of a character. */
  datatype Glyph = Glyph(symbol: char, width: uint16)

  /** How far the glyphs reach to the left and to the right of the centre, and their width. */
  function Left(gs: seq<Glyph>): nat {
    if gs == [] then 0 else Left(gs[..|gs| - 1]) + (gs[|gs| - 1].width + 1) / 2
  }

  function Right(gs: seq<Glyph>): nat {
    if gs == [] then 0 else Right(gs[..|gs| - 1]) + gs[|gs| - 1].width / 2
  }

  function Width(gs: seq<Glyph>): nat {
    if gs == [] then 0 else Width(gs[..|gs| - 1]) + gs[|gs| - 1].width
  }

  lemma {:induction false} LeftAndRight(gs: seq<Glyph>)
    ensures Left(gs) + Right(gs) == Width(gs)
    decreases |gs|
  {
    if gs != [] {
      LeftAndRight(gs[..|gs| - 1]);
    }
  }

  lemma OneMoreGlyph(gs: seq<Glyph>, g: Glyph)
    ensures Left(gs + [g]) == Left(gs) + (g.width + 1) / 2
    ensures Right(gs + [g]) == Right(gs) + g.width / 2
  {
    assert (gs + [g])[..|gs|] == gs;
  }

  function DropLast(gs: seq<Glyph>): seq<Glyph> {
    if gs == [] then [] else gs[..|gs| - 1]
  }

  /**
   Coordinates are 16 bits wide: every assignment to one is proved to be in range, so no
   addition or subtraction below can wrap around.
   */
  class Box {
    const charProp: array<Glyph>
    const minX: uint16
    const maxX: uint16
    const charMaxSize: nat
    const yi: uint16
    var xi: uint16
    var cursorX: uint16
    var charSize: nat
    ghost const centre: uint16

    ghost function Contents(): seq<Glyph>
      requires charSize <= charProp.Length
      reads `charSize, charProp
    {
      charProp[..charSize]
    }

    /** The ends of the text are where the glyphs put them, inside the limits, with no 16-bit wrap. */
    ghost predicate Valid()
      reads this, charProp
    {
      && charProp.Length == MAX_TEXT_BOX_SIZE && charSize <= charMaxSize <= MAX_TEXT_BOX_SIZE
      && xi == centre - Left(Contents())
      && cursorX == centre + Right(Contents())
      && (Contents() != [] ==> minX <= xi && cursorX <= maxX)
    }

    /** create_writeable_text_box */
    constructor (x: uint16, y: uint16, minX: uint16, maxX: uint16, maxSize: nat)
      requires maxSize <= MAX_TEXT_BOX_SIZE
      ensures Valid() && fresh(charProp) && Contents() == []
      ensures centre == x && yi == y && this.minX == minX && this.maxX == maxX && charMaxSize == maxSize
    {
      cursorX, xi, yi, centre := x, x, y, x;
      this.maxX, this.minX, charMaxSize, charSize := maxX, minX, maxSize, 0;
      charProp := new Glyph[MAX_TEXT_BOX_SIZE](_ => Glyph(' ', 0));
    }

    /** The text is as wide as its glyphs together. */
    lemma Spans()
      requires Valid()
      ensures cursorX - xi == Width(Contents())
    {
      LeftAndRight(Contents());
    }

    /** There is room for the glyph: a free place, half its width on the right, all of it on the left. */
    ghost predicate HasRoom(img: Glyph)
      reads this, charProp
      requires charSize <= charProp.Length
    {
      && charSize < charMaxSize
      && centre + Right(Contents()) + img.width / 2 <= maxX
      && centre - Left(Contents()) - img.width >= minX
    }

    /**
     The check of the left limit refuses some glyphs that would fit: exactly those whose half
     width fits on the left and whose whole width does not.
     */
    lemma RefusedThoughItFits(img: Glyph)
      requires Valid() && charSize < charMaxSize && cursorX + img.width / 2 <= maxX
      ensures !HasRoom(img) && minX <= xi - (img.width + 1) / 2
              <==> (img.width + 1) / 2 <= xi - minX < img.width
    {
    }

    /** The three checks of add_to_centered_text_box. */
    method CheckRoom(img: Glyph) returns (room: bool)
      requires Valid()
      ensures room <==> HasRoom(img)
    {
      if charSize == charMaxSize {
        return false;
      }
      if cursorX + img.width / 2 > maxX {
        return false;
      }
      if xi - (img.width + 1 / 2) < minX {
        return false;
      }
      return true;
    }

    /** add_to_centered_text_box */
    method Add(img: Glyph) returns (added: bool)
      requires Valid()
      modifies `xi, `cursorX, `charSize, charProp
      ensures Valid()
      ensures added <==> old(HasRoom(img))
      ensures Contents() == if added then old(Contents()) + [img] else old(Contents())
      ensures xi == old(xi) - (if added then (img.width + 1) / 2 else 0)
      ensures cursorX == old(cursorX) + (if added then img.width / 2 else 0)
    {
      added := CheckRoom(img);
      if added {
        ghost var was := Contents();
        charProp[charSize] := img;
        charSize := charSize + 1;
        assert charProp[..charSize] == was + [img];
        OneMoreGlyph(was, img);
        cursorX := cursorX + img.width / 2;
        xi := xi - (img.width + 1) / 2;
      }
    }

    /** remove_from_centered_text_box: takes back the last Add, or does nothing. */
    method Remove()
      requires Valid()
      modifies `xi, `cursorX, `charSize
      ensures Valid()
      ensures Contents() == DropLast(old(Contents()))
    {
      if charSize == 0 {
        return;
      }
      ghost var was := Contents();
      var img := charProp[charSize - 1];
      charSize := charSize - 1;
      assert Contents() == DropLast(was) && was == Contents() + [img];
      OneMoreGlyph(Contents(), img);
      cursorX := cursorX - img.width / 2;
      xi := xi + (img.width + 1) / 2;
    }

    /** Adding and removing leaves every field as it was. */
    method AddAndRemove(img: Glyph) returns (added: bool)
      requires Valid()
      modifies `xi, `cursorX, `charSize, charProp
      ensures Valid() && Contents() == old(Contents())
      ensures added ==> xi == old(xi) && cursorX == old(cursorX)
    {
      added := Add(img);
      if added {
        Remove();
        assert (old(Contents()) + [img])[..old(charSize)] == old(Contents());
      }
    }
  }

  // ---------------------------------------------------------------- the number of rounds

  const ENTER: char := 10 as char
  const BACKSPACE: char := 8 as char

  predicate AllDigits(gs: seq<Glyph>) {
    forall i :: 0 <= i < |gs| ==> IsDigit(gs[i].symbol)
  }

  /** The decimal number that the box shows. */
  function Value(gs: seq<Glyph>): nat
    requires AllDigits(gs)
  {
    if gs == [] then 0
    else 10 * Value(gs[..|gs| - 1]) + (gs[|gs| - 1].symbol as int - '0' as int)
  }

  lemma {:induction false} ValueBound(gs: seq<Glyph>)
    requires AllDigits(gs)
    ensures Value(gs) < Pow10(|gs|)
    decreases |gs|
  {
    if gs != [] {
      ValueBound(gs[..|gs| - 1]);
    }
  }

  function Text(gs: seq<Glyph>): string {
    if gs == [] then "" else Text(gs[..|gs| - 1]) + [gs[|gs| - 1].symbol]
  }

  /** The value of a printed number is that number. */
  lemma {:induction false} ValueOfPrinted(gs: seq<Glyph>, n: nat)
    requires AllDigits(gs) && Text(gs) == PrintNat(n)
    ensures Value(gs) == n
    decreases |gs|
  {
    var most, last := gs[..|gs| - 1], gs[|gs| - 1];
    assert Text(gs)[..|Text(gs)| - 1] == Text(most) && Text(gs)[|Text(gs)| - 1] == last.symbol;
    if n >= 10 {
      assert Text(most) == PrintNat(n / 10);
      ValueOfPrinted(most, n / 10);
    } else {
      assert Text(most) == "";
      TextLength(most);
    }
  }

  lemma {:induction false} TextLength(gs: seq<Glyph>)
    ensures |Text(gs)| == |gs|
    decreases |gs|
  {
    if gs != [] {
      TextLength(gs[..|gs| - 1]);
    }
  }

  type uint32 = n: int | 0 <= n < 0x1_0000_0000

  class NumberOfRounds {
    var box: Box
    var numRoundsValue: uint32

    /** The value is the number in the box. */
    ghost predicate Valid()
      reads this, box, box.charProp
    {
      && box.Valid() && box.charMaxSize == 3
      && AllDigits(box.Contents()) && numRoundsValue == Value(box.Contents())
    }

    /** create_num_box */
    constructor ()
      ensures Valid() && fresh(box) && fresh(box.charProp) && box.Contents() == []
      ensures box.centre == box.xi == 400 && box.yi == 360 && box.minX == 0 && box.maxX == 65535
    {
      box := new Box(400, 360, 0, 65535, 3);
      numRoundsValue := 0;
    }

    lemma AtMostThreeDigits()
      requires Valid()
      ensures numRoundsValue < Pow10(box.charSize) && numRoundsValue <= 999
    {
      ValueBound(box.Contents());
      assert Pow10(1) == 10 && Pow10(2) == 100 && Pow10(3) == 1000;
    }

    method TypeDigit(key: char, img: Glyph)
      requires Valid() && img.symbol == key && IsDigit(key)
      modifies `numRoundsValue, box`xi, box`cursorX, box`charSize, box.charProp
      ensures Valid()
      ensures box.Contents() == old(box.Contents()) + if old(box.HasRoom(img)) then [img] else []
    {
      AtMostThreeDigits();
      ghost var was := box.Contents();
      var added := box.Add(img);
      if added {
        numRoundsValue := numRoundsValue * 10 + (key as int - '0' as int);
        assert box.Contents()[..|was|] == was;
      } else {
        assert was + [] == was;
      }
    }

    method Erase()
      requires Valid()
      modifies `numRoundsValue, box`xi, box`cursorX, box`charSize
      ensures Valid()
      ensures box.Contents() == DropLast(old(box.Contents()))
    {
      box.Remove();
      numRoundsValue := numRoundsValue / 10;
    }

    /**
     A key; `img` is the image of its character. Returns the number of rounds of the game
     to start, which is the number shown in the box, or nothing.
     */
    method UpdateStatus(key: char, down: bool, img: Glyph) returns (start: Option<nat>)
      requires Valid() && img.symbol == key
      modifies `numRoundsValue, box`xi, box`cursorX, box`charSize, box.charProp
      ensures Valid()
      ensures start == if !down && key as int == 10 && old(numRoundsValue) != 0
                       then Some(Value(old(box.Contents()))) else None
      ensures box.Contents() ==
              if !down && IsDigit(key) && old(box.HasRoom(img)) then old(box.Contents()) + [img]
              else if !down && key as int == 8 then DropLast(old(box.Contents()))
              else old(box.Contents())
    {
      start := None;
      if down {
        return;
      }
      if key == ENTER && numRoundsValue != 0 {
        start := Some(numRoundsValue);
      }
      if IsDigit(key) {
        TypeDigit(key, img);
      }
      if key == BACKSPACE {
        Erase();
      }
    }
  }
}
