/** The product carousel shown in the modal: a fixed list of twelve images, an
    index into it that wraps around, and the keyboard dispatch that moves the
    index (mirrored under a right-to-left layout) or asks the host to close. */
module ProductsModal {
  import opened Text

  /** Length of the generated carousel list. */
  const ProductCount: nat := 12

  datatype Item = Item(id: nat, src: string, alt: string, title: string)

  /** `/products/{n}.jpg`: the numeral between the fixed parts reads back as n. */
  function ImagePath(n: nat): (path: string)
    ensures |path| > 14 && path[..10] == "/products/" && path[|path| - 4..] == ".jpg"
    ensures AllDigits(path[10..|path| - 4]) && ParseDecimal(path[10..|path| - 4]) == n
  {
    var path := "/products/" + NatToString(n) + ".jpg";
    assert path[10..|path| - 4] == NatToString(n);
    ParseNatToString(n);
    path
  }

  /** `Product {n}`: the numeral after the fixed part reads back as n. */
  function ProductLabel(n: nat): (text: string)
    ensures |text| > 8 && text[..8] == "Product "
    ensures AllDigits(text[8..]) && ParseDecimal(text[8..]) == n
  {
    var text := "Product " + NatToString(n);
    assert text[8..] == NatToString(n);
    ParseNatToString(n);
    text
  }

  /** The generated item at index i: its alt text and title both name its number. */
  function MakeItem(i: nat): (item: Item)
    ensures item.id == i + 1 && item.src == ImagePath(item.id)
    ensures item.alt == item.title && item.title == ProductLabel(item.id)
  {
    Item(i + 1, ImagePath(i + 1), ProductLabel(i + 1), ProductLabel(i + 1))
  }

  /** The carousel list: item i is numbered i + 1 and shows `/products/{i+1}.jpg`. */
  function Products(): (items: seq<Item>)
    ensures |items| == ProductCount
    ensures forall i :: 0 <= i < |items| ==>
      items[i].id == i + 1 && items[i].src == ImagePath(items[i].id)
  {
    seq(ProductCount, i requires 0 <= i => MakeItem(i))
  }

  /** No two carousel items share an id or an image. */
  lemma ProductsDistinct(i: nat, j: nat)
    requires i < j < ProductCount
    ensures Products()[i].id != Products()[j].id
    ensures Products()[i].src != Products()[j].src
  {
    // Equal paths would hold equal numerals, and ImagePath's numeral reads back as its number.
    var a, b := Products()[i], Products()[j];
    assert a.src == ImagePath(i + 1) && b.src == ImagePath(j + 1);
  }

  /** JavaScript's `%`: the remainder takes the sign of the dividend. */
  function JsRem(a: int, b: int): (r: int)
    requires b != 0
    ensures a >= 0 && b > 0 ==> 0 <= r < b && r == a % b
    ensures a < 0 ==> r <= 0
  {
    var m := (if a < 0 then -a else a) % (if b < 0 then -b else b);
    if a < 0 then -m else m
  }

  /** `nextProduct`'s update `(i + 1) % length`. */
  function Next(i: int): (r: int)
    requires 0 <= i < ProductCount
    ensures 0 <= r < ProductCount
    ensures r == if i == ProductCount - 1 then 0 else i + 1
  {
    JsRem(i + 1, ProductCount)
  }

  /** `prevProduct`'s update `(i - 1 + length) % length`. */
  function Prev(i: int): (r: int)
    requires 0 <= i < ProductCount
    ensures 0 <= r < ProductCount
    ensures r == if i == 0 then ProductCount - 1 else i - 1
  {
    JsRem(i - 1 + ProductCount, ProductCount)
  }

  lemma NextThenPrev(i: int)
    requires 0 <= i < ProductCount
    ensures Prev(Next(i)) == i
  {}

  lemma PrevThenNext(i: int)
    requires 0 <= i < ProductCount
    ensures Next(Prev(i)) == i
  {}

  /** The index after n presses of "next". */
  function NextN(i: int, n: nat): (r: int)
    requires 0 <= i < ProductCount
    ensures 0 <= r < ProductCount
  {
    if n == 0 then i else Next(NextN(i, n - 1))
  }

  /** The index after n presses of "previous". */
  function PrevN(i: int, n: nat): (r: int)
    requires 0 <= i < ProductCount
    ensures 0 <= r < ProductCount
  {
    if n == 0 then i else Prev(PrevN(i, n - 1))
  }

  /** n nexts advance the index by n modulo the list length. */
  lemma {:induction false} NextNAdds(i: int, n: nat)
    requires 0 <= i < ProductCount
    ensures NextN(i, n) == (i + n) % ProductCount
  {
    if n > 0 {
      NextNAdds(i, n - 1);
    }
  }

  /** n previouses move the index back by n modulo the list length. */
  lemma {:induction false} PrevNSubtracts(i: int, n: nat)
    requires 0 <= i < ProductCount
    ensures PrevN(i, n) == (i + ProductCount - n % ProductCount) % ProductCount
  {
    if n > 0 {
      PrevNSubtracts(i, n - 1);
      RemainderStep(n - 1);
      var r := (n - 1) % ProductCount;
      OneLapAtMost(i + ProductCount - r);
      if r == ProductCount - 1 {
        OneLapAtMost(i + ProductCount);
      } else {
        OneLapAtMost(i + ProductCount - (r + 1));
      }
    }
  }

  /** A value below two lengths loses at most one length to the remainder. */
  lemma OneLapAtMost(x: int)
    requires 0 <= x < 2 * ProductCount
    ensures x % ProductCount == if x < ProductCount then x else x - ProductCount
  {}

  /** Counting one further step moves the remainder by one, wrapping at the length. */
  lemma RemainderStep(k: nat)
    ensures (k + 1) % ProductCount ==
            if k % ProductCount == ProductCount - 1 then 0 else k % ProductCount + 1
  {
    var q := k / ProductCount;
    assert k == ProductCount * q + k % ProductCount;
    if k % ProductCount == ProductCount - 1 {
      assert k + 1 == ProductCount * (q + 1);
    } else {
      assert k + 1 == ProductCount * q + (k % ProductCount + 1);
    }
  }

  /** From index 0: n nexts land on n mod 12, n previouses on (12 - n mod 12) mod 12. */
  lemma FromStart(n: nat)
    ensures NextN(0, n) == n % ProductCount
    ensures PrevN(0, n) == (ProductCount - n % ProductCount) % ProductCount
  {
    NextNAdds(0, n);
    PrevNSubtracts(0, n);
  }

  /** Whole laps of nexts, or of previouses, come back to the same item. */
  lemma FullLaps(i: int, laps: nat)
    requires 0 <= i < ProductCount
    ensures NextN(i, laps * ProductCount) == i
    ensures PrevN(i, laps * ProductCount) == i
  {
    NextNAdds(i, laps * ProductCount);
    PrevNSubtracts(i, laps * ProductCount);
    LapsVanish(i, laps);
  }

  lemma {:induction false} LapsVanish(i: int, laps: nat)
    requires 0 <= i < ProductCount
    ensures (i + laps * ProductCount) % ProductCount == i
    ensures (laps * ProductCount) % ProductCount == 0
  {
    if laps > 0 {
      LapsVanish(i, laps - 1);
      assert laps * ProductCount == (laps - 1) * ProductCount + ProductCount;
    }
  }

  /** What a key press asks the carousel to do. */
  datatype Action = MoveNext | MovePrev | Close | Ignore

  /** `handleKeyPress`'s dispatch on `isOpen`, `isRTL` and the key name. */
  function KeyAction(isOpen: bool, isRTL: bool, key: string): (a: Action)
    ensures !isOpen ==> a == Ignore
    ensures a == Close <==> isOpen && key == "Escape"
    ensures a == MoveNext <==>
      isOpen && ((key == "ArrowRight" && !isRTL) || (key == "ArrowLeft" && isRTL))
    ensures a == MovePrev <==>
      isOpen && ((key == "ArrowLeft" && !isRTL) || (key == "ArrowRight" && isRTL))
  {
    if !isOpen then Ignore
    else if key == "ArrowLeft" then (if isRTL then MoveNext else MovePrev)
    else if key == "ArrowRight" then (if isRTL then MovePrev else MoveNext)
    else if key == "Escape" then Close
    else Ignore
  }

  /** The index after an action; closing leaves it where it was. */
  function ApplyAction(i: int, a: Action): (r: int)
    requires 0 <= i < ProductCount
    ensures 0 <= r < ProductCount
    ensures a == Close || a == Ignore ==> r == i
  {
    match a
    case MoveNext => Next(i)
    case MovePrev => Prev(i)
    case _ => i
  }

  /** The key that sits on the other side under a mirrored layout. */
  function MirrorKey(key: string): (m: string)
    ensures m == key <==> key != "ArrowLeft" && key != "ArrowRight"
  {
    if key == "ArrowLeft" then "ArrowRight"
    else if key == "ArrowRight" then "ArrowLeft"
    else key
  }

  lemma MirrorKeyInvolutive(key: string)
    ensures MirrorKey(MirrorKey(key)) == key
  {}

  /** Right-to-left handling of a key is left-to-right handling of its mirror. */
  lemma RtlMirrorsLtr(isOpen: bool, key: string)
    ensures KeyAction(isOpen, true, key) == KeyAction(isOpen, false, MirrorKey(key))
  {}

  /** Opposite arrows undo each other whatever the layout. */
  lemma OppositeArrowsCancel(isRTL: bool, i: int)
    requires 0 <= i < ProductCount
    ensures ApplyAction(ApplyAction(i, KeyAction(true, isRTL, "ArrowLeft")),
                        KeyAction(true, isRTL, "ArrowRight")) == i
    ensures ApplyAction(ApplyAction(i, KeyAction(true, isRTL, "ArrowRight")),
                        KeyAction(true, isRTL, "ArrowLeft")) == i
  {}

  /** The modal's `currentIndex` state. */
  class Carousel {
    var currentIndex: int

    ghost predicate Valid()
      reads this
    {
      0 <= currentIndex < ProductCount
    }

    /** `useState(0)`. */
    constructor ()
      ensures Valid() && currentIndex == 0
    {
      currentIndex := 0;
    }

    method NextProduct()
      requires Valid()
      modifies this
      ensures Valid() && currentIndex == Next(old(currentIndex))
    {
      currentIndex := JsRem(currentIndex + 1, |Products()|);
    }

    method PrevProduct()
      requires Valid()
      modifies this
      ensures Valid() && currentIndex == Prev(old(currentIndex))
    {
      currentIndex := JsRem(currentIndex - 1 + |Products()|, |Products()|);
    }

    /** A click on dot `index`; the dots are drawn for the list's indices only. */
    method SelectProduct(index: int)
      requires 0 <= index < |Products()|
      modifies this
      ensures Valid() && currentIndex == index
    {
      currentIndex := index;
    }

    /** One keydown event; `closeRequested` stands for the call to `onClose`. */
    method HandleKeyPress(isOpen: bool, isRTL: bool, key: string) returns (closeRequested: bool)
      requires Valid()
      modifies this
      ensures Valid()
      ensures currentIndex == ApplyAction(old(currentIndex), KeyAction(isOpen, isRTL, key))
      ensures closeRequested <==> isOpen && key == "Escape"
      ensures !isOpen ==> currentIndex == old(currentIndex) && !closeRequested
    {
      closeRequested := false;
      if !isOpen {
        return;
      }
      if key == "ArrowLeft" {
        if isRTL { NextProduct(); } else { PrevProduct(); }
      } else if key == "ArrowRight" {
        if isRTL { PrevProduct(); } else { NextProduct(); }
      } else if key == "Escape" {
        closeRequested := true;
      }
    }

    /** The "n of 12" counter in the header. */
    function Counter(): (n: int)
      reads this
      requires Valid()
      ensures 1 <= n <= |Products()|
      ensures n == Products()[currentIndex].id
    {
      currentIndex + 1
    }

    /** The item on display. */
    function Current(): (item: Item)
      reads this
      requires Valid()
      ensures item.id == currentIndex + 1 && item.src == ImagePath(currentIndex + 1)
    {
      Products()[currentIndex]
    }
  }

  /** A session: each arrow key followed by its opposite, in either layout,
      leaves the carousel on the same item, and Escape then asks to close
      without moving it. */
  method ArrowRoundTrip(c: Carousel, isRTL: bool) returns (closed: bool)
    requires c.Valid()
    modifies c
    ensures c.Valid() && c.currentIndex == old(c.currentIndex)
    ensures closed
  {
    OppositeArrowsCancel(isRTL, c.currentIndex);
    closed := c.HandleKeyPress(true, isRTL, "ArrowLeft");
    closed := c.HandleKeyPress(true, isRTL, "ArrowRight");
    closed := c.HandleKeyPress(true, isRTL, "ArrowRight");
    closed := c.HandleKeyPress(true, isRTL, "ArrowLeft");
    closed := c.HandleKeyPress(true, isRTL, "Escape");
  }
}
