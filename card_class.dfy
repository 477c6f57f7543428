/** The course card: which member of a course object each displayed field
    comes from, and how price and rating are printed. The card accepts both
    the server's field names (judul, harga, ...) and the client's (title,
    price, ...). */
module CardClass {
  import opened Js

  /** `course?.[key]`; a null or undefined course (None) has no members. */
  function Member(course: Option<Object>, key: string): JsVal {
    if course.Some? then Get(course.value, key) else Undefined
  }

  /** `course?.k1 || course?.k2 || ... || fallback`: the value of the first
      key whose value is truthy, the fallback when there is none. */
  function FirstTruthy(course: Option<Object>, keys: seq<string>, fallback: JsVal): (r: JsVal)
    ensures (forall k :: k in keys ==> !Truthy(Member(course, k))) ==> r == fallback
    ensures forall i :: 0 <= i < |keys| && Truthy(Member(course, keys[i]))
                        && (forall j :: 0 <= j < i ==> !Truthy(Member(course, keys[j]))) ==>
                        r == Member(course, keys[i])
  {
    if keys == [] then fallback
    else if Truthy(Member(course, keys[0])) then Member(course, keys[0])
    else
      assert forall k :: k in keys[1..] ==> k in keys;
      assert forall i :: 0 < i < |keys| ==> keys[i] == keys[1..][i - 1];
      FirstTruthy(course, keys[1..], fallback)
  }

  datatype CourseData = CourseData(
    id: JsVal, title: JsVal, description: JsVal, image: JsVal, category: JsVal,
    instructor: JsVal, instructorBio: JsVal, instructorAvatar: JsVal,
    price: JsVal, rating: JsVal, duration: JsVal)

  /** `courseData`: each field from the first truthy alternative, else its default. */
  function CourseDataOf(course: Option<Object>): (d: CourseData)
    ensures Truthy(Member(course, "judul")) ==> d.title == Member(course, "judul")
    ensures d.title == Str("Judul Tidak Tersedia") || Truthy(d.title)
    ensures course.None? ==>
      d == CourseData(Str(""), Str("Judul Tidak Tersedia"), Str("Deskripsi tidak tersedia"), Null, Str("Umum"),
                      Str("Instruktur"), Str(""), Null, Num(0.0), Num(0.0), Num(0.0))
  {
    CourseData(
      FirstTruthy(course, ["id", "kelas_id"], Str("")),
      FirstTruthy(course, ["judul", "title", "nama"], Str("Judul Tidak Tersedia")),
      FirstTruthy(course, ["deskripsi", "description"], Str("Deskripsi tidak tersedia")),
      FirstTruthy(course, ["gambar", "image", "thumbnail"], Null),
      FirstTruthy(course, ["nama_kategori", "category", "kategori"], Str("Umum")),
      FirstTruthy(course, ["nama_tutor", "instructor", "tutor"], Str("Instruktur")),
      FirstTruthy(course, ["tutor_bio", "instructor_bio", "posisi"], Str("")),
      FirstTruthy(course, ["tutor_avatar", "instructor_avatar", "avatar"], Null),
      FirstTruthy(course, ["harga", "price"], Num(0.0)),
      FirstTruthy(course, ["rating", "nilai"], Num(0.0)),
      FirstTruthy(course, ["durasi", "duration"], Num(0.0)))
  }

  // ---------------------------------------------------------------- price

  /** `Rp ${n}` below 1000, `Rp ${n / 1000}K` from 1000 on, the quotient
      printed as JavaScript prints a number (1500 is "Rp 1.5K"). */
  function PriceLabel(n: nat): string {
    if n >= 1000 then "Rp " + NumberText(n as real / 1000.0) + "K" else "Rp " + NatText(n)
  }

  /** `formatPrice(price)`: a falsy price is free, a string with a "K" is
      shown as it is, and anything else by the digits of its `String`, so a
      number shows |price| with its decimal point dropped. */
  function FormatPrice(price: JsVal): (r: string)
    ensures !Truthy(price) ==> r == "Gratis"
    ensures Truthy(price) && price.Str? && Contains(price.s, "K") ==> r == "Rp " + price.s
    ensures price.Num? && price.r != 0.0 ==> r == PriceLabel(Scaled(price.r))
    ensures Truthy(price) && price.Str? && !Contains(price.s, "K") ==>
      r == if KeepDigits(price.s) == "" then "Rp NaN" else PriceLabel(DigitsValue(KeepDigits(price.s)))
  {
    if !Truthy(price) then "Gratis"
    else if price.Str? && Contains(price.s, "K") then "Rp " + price.s
    else
      var digits := KeepDigits(ToText(price));
      NumberDigits(price);
      if digits == "" then "Rp NaN" else PriceLabel(DigitsValue(digits))
  }

  lemma NumberDigits(price: JsVal)
    ensures price.Num? ==> KeepDigits(ToText(price)) != "" && DigitsValue(KeepDigits(ToText(price))) == Scaled(price.r)
  {
    if price.Num? {
      NumberTextDigits(price.r);
    }
  }

  lemma KeepDigitsOfNatText(n: nat)
    ensures KeepDigits(NatText(n)) == NatText(n)
    ensures DigitsValue(KeepDigits(NatText(n))) == n
  {
    KeepDigitsOfDigits(NatText(n));
    NatTextValue(n);
  }

  /** A whole number of rupiah: under 1000 printed as is, a multiple of 1000
      as thousands with a "K". */
  lemma FormatWholePrice(n: nat)
    requires n > 0
    ensures n < 1000 ==> FormatPrice(Num(n as real)) == "Rp " + NatText(n)
    ensures n % 1000 == 0 ==> FormatPrice(Num(n as real)) == "Rp " + NatText(n / 1000) + "K"
  {
    WholeNumberText(n);
    if n % 1000 == 0 {
      ThousandsWholeText(n);
    }
  }

  /** A whole number of hundreds from 1000 on shows one decimal of thousands:
      1500 is "Rp 1.5K". */
  lemma FormatHundredsPrice(n: nat)
    requires n >= 1000 && n % 100 == 0 && n % 1000 != 0
    ensures FormatPrice(Num(n as real)) == "Rp " + NatText(n / 1000) + "." + NatText(n / 100 % 10) + "K"
  {
    WholeNumberText(n);
    assert FormatPrice(Num(n as real)) == PriceLabel(n);
    HundredsText(n);
  }

  /** A price with one decimal shows its digits without the point: 1.5 is
      "Rp 15". */
  lemma FormatTenthsPrice(n: nat)
    requires n % 10 != 0 && n < 1000
    ensures FormatPrice(Num(n as real / 10.0)) == "Rp " + NatText(n)
  {
    Tenths(n);
  }

  /** A one-element array prints as its element: `[250]` is "Rp 250". */
  lemma FormatArrayPrice(n: nat)
    requires 0 < n < 1000
    ensures FormatPrice(Arr([Num(n as real)])) == "Rp " + NatText(n)
  {
    WholeNumberText(n);
    assert ToText(Arr([Num(n as real)])) == Join([NumberText(n as real)], ",") == NatText(n);
    assert !Contains(NatText(n), "K") by {
      NoLetterInDigits(NatText(n));
    }
    KeepDigitsOfNatText(n);
  }

  /** A price string written with its digits only reads the same way. */
  lemma FormatDigitString(n: nat)
    requires n > 0
    ensures n < 1000 ==> FormatPrice(Str(NatText(n))) == "Rp " + NatText(n)
    ensures n % 1000 == 0 ==> FormatPrice(Str(NatText(n))) == "Rp " + NatText(n / 1000) + "K"
  {
    KeepDigitsOfNatText(n);
    assert !Contains(NatText(n), "K") by {
      NoLetterInDigits(NatText(n));
    }
    assert FormatPrice(Str(NatText(n))) == PriceLabel(n);
    if n % 1000 == 0 {
      ThousandsWholeText(n);
    }
  }

  lemma {:induction false} NoLetterInDigits(d: string)
    requires AllDigits(d)
    ensures !Contains(d, "K")
  {
    if d != [] {
      assert !IsPrefix("K", d) by {
        assert IsDigit(d[0]);
      }
      NoLetterInDigits(d[1..]);
    }
  }

  // ---------------------------------------------------------------- rating

  /** `parseFloat(String(rating).split(' ')[0])`; None stands for NaN. */
  function RatingNumber(rating: JsVal): Option<real> {
    // parseFloat reads back the number String printed
    if rating.Num? then Some(rating.r) else ParseFloat(Split(ToText(rating), ' ')[0])
  }

  /** `formatRating`: NaN and 0 read as 0, then clamped to [0, 5]. */
  function FormatRating(rating: JsVal): (r: real)
    ensures 0.0 <= r <= 5.0
    ensures RatingNumber(rating).None? ==> r == 0.0
    ensures RatingNumber(rating).Some? && 0.0 <= RatingNumber(rating).value <= 5.0 ==> r == RatingNumber(rating).value
    ensures RatingNumber(rating).Some? && RatingNumber(rating).value > 5.0 ==> r == 5.0
    ensures RatingNumber(rating).Some? && RatingNumber(rating).value < 0.0 ==> r == 0.0
  {
    var n := RatingNumber(rating);
    var numRating := if n.Some? && n.value != 0.0 then n.value else 0.0;
    if numRating < 0.0 then 0.0 else if numRating > 5.0 then 5.0 else numRating
  }

  /** Star `star` of 1..5 is drawn highlighted. */
  predicate Highlighted(star: int, displayRating: real) {
    star as real <= displayRating
  }

  function HighlightedCount(displayRating: real, n: nat): (c: nat)
    requires n <= 5
  {
    if n == 0 then 0 else HighlightedCount(displayRating, n - 1) + (if Highlighted(n, displayRating) then 1 else 0)
  }

  /** The highlighted stars are the first ones, as many as the whole part
      of the displayed rating. */
  lemma StarsShowWholePart(rating: JsVal)
    ensures var d := FormatRating(rating);
      HighlightedCount(d, 5) == d.Floor
      && forall i, j :: 1 <= i <= j <= 5 && Highlighted(j, d) ==> Highlighted(i, d)
  {
    var d := FormatRating(rating);
    var f := d.Floor;
    assert 0 <= f <= 5;
    assert forall n :: 1 <= n <= 5 ==> (Highlighted(n, d) <==> n <= f);
    assert HighlightedCount(d, 1) == (if f >= 1 then 1 else 0);
    assert HighlightedCount(d, 2) == (if f >= 2 then 2 else f);
    assert HighlightedCount(d, 3) == (if f >= 3 then 3 else f);
    assert HighlightedCount(d, 4) == (if f >= 4 then 4 else f);
  }
}
