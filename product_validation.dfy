/** Product validation (internal/product/validation.go): four independent
    checks, each adding one field error, in a fixed order. */
module ProductValidation {

  import GoText
  import opened ProductStore

  datatype ValidationError = ValidationError(field: string, message: string)

  /** `ValidationError.Error()`: the field, a colon and a space, the message. */
  function ErrorText(v: ValidationError): (r: string)
    ensures |r| == |v.field| + 2 + |v.message|
    ensures r[..|v.field|] == v.field && r[|v.field|..|v.field| + 2] == ": "
    ensures r[|v.field| + 2..] == v.message
  {
    v.field + ": " + v.message
  }

  const MaxNameBytes: nat := 100
  const MaxPrice: real := 999999.99

  const NameRequired := ValidationError("name", "name is require")
  const NameTooLong := ValidationError("name", "name must be less than 100 characters")
  const PriceNotPositive := ValidationError("price", "price must be greater than 0")
  const PriceTooLarge := ValidationError("price", "price is too large")

  /** The constraints a product must meet, stated independently of the order
      in which `ValidateProduct` checks them. The name's length is counted in
      bytes of its UTF-8 encoding, as Go's `len` does. */
  predicate Acceptable(p: Product) {
    && !GoText.IsBlank(p.name)
    && GoText.Utf8Len(p.name) <= MaxNameBytes
    && 0.0 < p.price <= MaxPrice
  }

  function ErrorIf(c: bool, e: ValidationError): seq<ValidationError> {
    if c then [e] else []
  }

  /** `ValidateProduct`: the field errors of `p`, name checks before price
      checks. */
  function ValidateProduct(p: Product): (errs: seq<ValidationError>)
    ensures |errs| <= 3
    ensures errs == [] <==> Acceptable(p)
  {
    GoText.TrimSpaceEmptyIff(p.name);
    Collect(GoText.TrimSpace(p.name) == "", GoText.Utf8Len(p.name) > MaxNameBytes,
            p.price <= 0.0, p.price > MaxPrice)
  }

  /** The four errors are pairwise different. */
  lemma ErrorsDistinct()
    ensures NameRequired != NameTooLong && NameRequired != PriceNotPositive
    ensures NameRequired != PriceTooLarge && NameTooLong != PriceNotPositive
    ensures NameTooLong != PriceTooLarge && PriceNotPositive != PriceTooLarge
  {
    assert NameRequired.message[5] != NameTooLong.message[5];
    assert PriceNotPositive.message[6] != PriceTooLarge.message[6];
    assert NameRequired.field[0] != PriceNotPositive.field[0];
  }

  /** The errors of four check outcomes, in check order. */
  function Collect(blank: bool, long: bool, low: bool, high: bool): seq<ValidationError> {
    ErrorIf(blank, NameRequired) + ErrorIf(long, NameTooLong) + ErrorIf(low, PriceNotPositive) + ErrorIf(high, PriceTooLarge)
  }

  lemma InIf(c: bool, e: ValidationError, x: ValidationError)
    ensures x in ErrorIf(c, e) <==> c && x == e
  {
  }

  /** Each error is in the collected list exactly when its check fired. */
  lemma CollectMembers(blank: bool, long: bool, low: bool, high: bool)
    ensures var errs := Collect(blank, long, low, high);
      && (NameRequired in errs <==> blank)
      && (NameTooLong in errs <==> long)
      && (PriceNotPositive in errs <==> low)
      && (PriceTooLarge in errs <==> high)
  {
    ErrorsDistinct();
    var errs := Collect(blank, long, low, high);
    forall x | x in {NameRequired, NameTooLong, PriceNotPositive, PriceTooLarge}
      ensures x in errs <==> x in ErrorIf(blank, NameRequired) || x in ErrorIf(long, NameTooLong)
                             || x in ErrorIf(low, PriceNotPositive) || x in ErrorIf(high, PriceTooLarge)
    {
    }
    InIf(blank, NameRequired, NameRequired);
    InIf(long, NameTooLong, NameTooLong);
    InIf(low, PriceNotPositive, PriceNotPositive);
    InIf(high, PriceTooLarge, PriceTooLarge);
  }

  /** Name errors followed by price errors keep every name error ahead of
      every price error. */
  lemma NamesThenPrices(names: seq<ValidationError>, prices: seq<ValidationError>)
    requires forall i :: 0 <= i < |names| ==> names[i].field == "name"
    requires forall i :: 0 <= i < |prices| ==> prices[i].field == "price"
    ensures var errs := names + prices;
      forall i, j :: 0 <= i < j < |errs| && errs[j].field == "name" ==> errs[i].field == "name"
  {
    assert "price" != "name" by { assert "price"[0] != "name"[0]; }
    var errs := names + prices;
    forall i, j | 0 <= i < j < |errs| && errs[j].field == "name"
      ensures errs[i].field == "name"
    {
      assert errs[i] == names[i];
    }
  }

  /** Name errors come before price errors in the collected list. */
  lemma CollectOrder(blank: bool, long: bool, low: bool, high: bool)
    ensures var errs := Collect(blank, long, low, high);
      forall i, j :: 0 <= i < j < |errs| && errs[j].field == "name" ==> errs[i].field == "name"
  {
    var names := ErrorIf(blank, NameRequired) + ErrorIf(long, NameTooLong);
    var prices := ErrorIf(low, PriceNotPositive) + ErrorIf(high, PriceTooLarge);
    assert Collect(blank, long, low, high) == names + prices;
    NamesThenPrices(names, prices);
  }

  /** Each error is reported exactly when its check fails, and name errors
      come before price errors. */
  lemma ErrorsMatchChecks(p: Product)
    ensures NameRequired in ValidateProduct(p) <==> GoText.IsBlank(p.name)
    ensures NameTooLong in ValidateProduct(p) <==> GoText.Utf8Len(p.name) > MaxNameBytes
    ensures PriceNotPositive in ValidateProduct(p) <==> p.price <= 0.0
    ensures PriceTooLarge in ValidateProduct(p) <==> p.price > MaxPrice
    ensures var errs := ValidateProduct(p);
      forall i, j :: 0 <= i < j < |errs| && errs[j].field == "name" ==> errs[i].field == "name"
  {
    GoText.TrimSpaceEmptyIff(p.name);
    CollectMembers(GoText.IsBlank(p.name), GoText.Utf8Len(p.name) > MaxNameBytes,
                   p.price <= 0.0, p.price > MaxPrice);
    CollectOrder(GoText.IsBlank(p.name), GoText.Utf8Len(p.name) > MaxNameBytes,
                 p.price <= 0.0, p.price > MaxPrice);
  }

  /** Exactly how many errors a product gets: one per violated name check and
      at most one for the price, since the two price checks exclude each
      other. */
  lemma ErrorCount(p: Product)
    ensures |ValidateProduct(p)| ==
      (if GoText.IsBlank(p.name) then 1 else 0)
      + (if GoText.Utf8Len(p.name) > MaxNameBytes then 1 else 0)
      + (if p.price <= 0.0 || p.price > MaxPrice then 1 else 0)
  {
    GoText.TrimSpaceEmptyIff(p.name);
  }

  /** A name of exactly 100 bytes passes the length check; one of 101 does not. */
  lemma NameLengthBoundary(p: Product)
    requires 0.0 < p.price <= MaxPrice && !GoText.IsBlank(p.name)
    ensures GoText.Utf8Len(p.name) == 100 ==> ValidateProduct(p) == []
    ensures GoText.Utf8Len(p.name) == 101 ==> ValidateProduct(p) == [NameTooLong]
  {
    ValidateIsCollect(p, false, GoText.Utf8Len(p.name) > MaxNameBytes, false, false);
  }

  /** The errors of a product are those of its four check outcomes. */
  lemma ValidateIsCollect(p: Product, blank: bool, long: bool, low: bool, high: bool)
    requires blank == GoText.IsBlank(p.name) && long == (GoText.Utf8Len(p.name) > MaxNameBytes)
    requires low == (p.price <= 0.0) && high == (p.price > MaxPrice)
    ensures ValidateProduct(p) == Collect(blank, long, low, high)
  {
    GoText.TrimSpaceEmptyIff(p.name);
  }

  /** A product with an empty name and a valid price has exactly the name
      error. */
  lemma EmptyNameCase()
    ensures ValidateProduct(Product(0, "", 10.0)) == [NameRequired]
  {
    ValidateIsCollect(Product(0, "", 10.0), true, false, false, false);
  }

  /** A product whose name passes both name checks and whose price is not
      positive has exactly the one price error. */
  lemma PriceOnlyError(p: Product)
    requires !GoText.IsBlank(p.name) && GoText.Utf8Len(p.name) <= MaxNameBytes && p.price <= 0.0
    ensures ValidateProduct(p) == [PriceNotPositive]
  {
    ValidateIsCollect(p, false, false, true, false);
  }

  /** An empty name and a negative price give one error per field. */
  lemma EmptyNameNegativePrice()
    ensures ValidateProduct(Product(0, "", -5.0)) == [NameRequired, PriceNotPositive]
  {
    ValidateIsCollect(Product(0, "", -5.0), true, false, true, false);
  }

  /** The cases of the source's table test. */
  lemma TableCases()
    ensures ValidateProduct(Product(0, "Book", 10.99)) == []
    ensures ValidateProduct(Product(0, "", 10.0)) == [NameRequired]
    ensures ValidateProduct(Product(0, "Book", 0.0)) == [PriceNotPositive]
    ensures ValidateProduct(Product(0, "", -5.0)) == [NameRequired, PriceNotPositive]
  {
    assert !GoText.IsBlank("Book") by { assert !GoText.IsSpace("Book"[0]); }
    assert Acceptable(Product(0, "Book", 10.99));
    EmptyNameCase();
    PriceOnlyError(Product(0, "Book", 0.0));
    EmptyNameNegativePrice();
  }
}
