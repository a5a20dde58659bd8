/**
 * The payload validators (middleware/validation.js). Each one runs every
 * check in a fixed order, collects the message of each violated rule, and
 * throws a single Validation error carrying all of them, or lets the
 * request through.
 */
module Validation {
  import opened JsValues
  import opened JsStrings
  import opened JsArrays
  import opened Errors
  import opened Products

  /** The rules the two validators check, one per message. */
  datatype Rule =
    | NameRequired | DescriptionRequired | PriceRequired | PriceNotNonNegative
    | CategoryRequired | InStockNotBoolean | NameTooLong | DescriptionTooLong
    | CategoryTooLong | PriceTooHigh | NameNotNonEmpty | DescriptionNotNonEmpty
    | CategoryNotNonEmpty | NoFields

  /** The message text of each rule, as the validators push it. */
  const NameRequiredText := "Name is required and must be a non-empty string"
  const DescriptionRequiredText := "Description is required and must be a non-empty string"
  const PriceRequiredText := "Price is required"
  const PriceNotNonNegativeText := "Price must be a non-negative number"
  const CategoryRequiredText := "Category is required and must be a non-empty string"
  const InStockNotBooleanText := "inStock must be a boolean value"
  const NameTooLongText := "Name must be less than 100 characters"
  const DescriptionTooLongText := "Description must be less than 500 characters"
  const CategoryTooLongText := "Category must be less than 50 characters"
  const PriceTooHighText := "Price must be less than $999,999.99"
  const NameNotNonEmptyText := "Name must be a non-empty string"
  const DescriptionNotNonEmptyText := "Description must be a non-empty string"
  const CategoryNotNonEmptyText := "Category must be a non-empty string"
  const NoFieldsText := "At least one field must be provided for update"

  function Message(r: Rule): string {
    match r
    case NameRequired => NameRequiredText
    case DescriptionRequired => DescriptionRequiredText
    case PriceRequired => PriceRequiredText
    case PriceNotNonNegative => PriceNotNonNegativeText
    case CategoryRequired => CategoryRequiredText
    case InStockNotBoolean => InStockNotBooleanText
    case NameTooLong => NameTooLongText
    case DescriptionTooLong => DescriptionTooLongText
    case CategoryTooLong => CategoryTooLongText
    case PriceTooHigh => PriceTooHighText
    case NameNotNonEmpty => NameNotNonEmptyText
    case DescriptionNotNonEmpty => DescriptionNotNonEmptyText
    case CategoryNotNonEmpty => CategoryNotNonEmptyText
    case NoFields => NoFieldsText
  }

  const MaxPrice: real := 999999.99

  /** A string with something other than white space in it. */
  predicate NonEmptyString(v: JsValue) {
    v.Str? && !Blank(v.s)
  }

  /** `v && v.length > n`: strings and arrays have a length, other values none. */
  predicate LengthOver(v: JsValue, n: nat) {
    Truthy(v) && match v
      case Str(s) => |s| > n
      case Arr(k) => k > n
      case _ => false
  }

  /** The check `validateProduct` makes for each rule, as written there; true means violated. */
  predicate ViolatedOnCreate(r: Rule, b: Body) {
    match r
    case NameRequired => !Truthy(b.name) || !b.name.Str? || Blank(b.name.s)
    case DescriptionRequired => !Truthy(b.description) || !b.description.Str? || Blank(b.description.s)
    case PriceRequired => b.price.Undefined? || b.price.Null?
    case PriceNotNonNegative =>
      !(b.price.Undefined? || b.price.Null?) && (!b.price.Num? || b.price.x < 0.0)
    case CategoryRequired => !Truthy(b.category) || !b.category.Str? || Blank(b.category.s)
    case InStockNotBoolean => !b.inStock.Undefined? && !b.inStock.Bool?
    case NameTooLong => LengthOver(b.name, 100)
    case DescriptionTooLong => LengthOver(b.description, 500)
    case CategoryTooLong => LengthOver(b.category, 50)
    case PriceTooHigh => Truthy(b.price) && b.price.Num? && b.price.x > MaxPrice
    case _ => false
  }

  /**
   * The check `validateProductUpdate` makes for each rule, as written there:
   * a field's second check is reached only when it is present and passed the first.
   */
  predicate ViolatedOnUpdate(r: Rule, b: Body) {
    match r
    case NameNotNonEmpty => !b.name.Undefined? && (!b.name.Str? || Blank(b.name.s))
    case NameTooLong =>
      !b.name.Undefined? && !(!b.name.Str? || Blank(b.name.s)) && (b.name.Str? && |b.name.s| > 100)
    case DescriptionNotNonEmpty =>
      !b.description.Undefined? && (!b.description.Str? || Blank(b.description.s))
    case DescriptionTooLong =>
      !b.description.Undefined? && !(!b.description.Str? || Blank(b.description.s))
      && (b.description.Str? && |b.description.s| > 500)
    case PriceNotNonNegative => !b.price.Undefined? && (!b.price.Num? || b.price.x < 0.0)
    case PriceTooHigh =>
      !b.price.Undefined? && !(!b.price.Num? || b.price.x < 0.0) && (b.price.Num? && b.price.x > MaxPrice)
    case CategoryNotNonEmpty => !b.category.Undefined? && (!b.category.Str? || Blank(b.category.s))
    case CategoryTooLong =>
      !b.category.Undefined? && !(!b.category.Str? || Blank(b.category.s))
      && (b.category.Str? && |b.category.s| > 50)
    case InStockNotBoolean => !b.inStock.Undefined? && !b.inStock.Bool?
    case NoFields => KeyCount(b) == 0
    case _ => false
  }

  function OnCreate(b: Body): Rule -> bool {
    r => ViolatedOnCreate(r, b)
  }

  function OnUpdate(b: Body): Rule -> bool {
    r => ViolatedOnUpdate(r, b)
  }

  /** The order in which `validateProduct` checks its rules. */
  const CreateOrder: seq<Rule> :=
    [NameRequired, DescriptionRequired, PriceRequired, PriceNotNonNegative, CategoryRequired,
     InStockNotBoolean, NameTooLong, DescriptionTooLong, CategoryTooLong, PriceTooHigh]

  /** The order in which `validateProductUpdate` checks its rules. */
  const UpdateOrder: seq<Rule> :=
    [NameNotNonEmpty, NameTooLong, DescriptionNotNonEmpty, DescriptionTooLong,
     PriceNotNonNegative, PriceTooHigh, CategoryNotNonEmpty, CategoryTooLong,
     InStockNotBoolean, NoFields]

  /** The rules `b` violates on create, in check order. */
  function CreateViolations(b: Body): seq<Rule> {
    Filter(CreateOrder, OnCreate(b))
  }

  /** The rules `b` violates on update, in check order. */
  function UpdateViolations(b: Body): seq<Rule> {
    Filter(UpdateOrder, OnUpdate(b))
  }

  /** The message of each rule, in order. */
  function Messages(rs: seq<Rule>): seq<string> {
    Map(rs, Message)
  }

  /** No message lets the request through; otherwise one error lists every message. */
  function Verdict(messages: seq<string>): Check {
    if |messages| == 0 then Pass
    else Fail(Validation("Validation failed: " + Join(messages, ", ")))
  }

  /** The violations on create, rule by rule in check order. */
  lemma CreateViolationsUnrolled(b: Body)
    ensures CreateViolations(b) ==
      Keep(NameRequired, ViolatedOnCreate(NameRequired, b)) + Keep(DescriptionRequired, ViolatedOnCreate(DescriptionRequired, b))
      + Keep(PriceRequired, ViolatedOnCreate(PriceRequired, b)) + Keep(PriceNotNonNegative, ViolatedOnCreate(PriceNotNonNegative, b))
      + Keep(CategoryRequired, ViolatedOnCreate(CategoryRequired, b)) + Keep(InStockNotBoolean, ViolatedOnCreate(InStockNotBoolean, b))
      + Keep(NameTooLong, ViolatedOnCreate(NameTooLong, b)) + Keep(DescriptionTooLong, ViolatedOnCreate(DescriptionTooLong, b))
      + Keep(CategoryTooLong, ViolatedOnCreate(CategoryTooLong, b)) + Keep(PriceTooHigh, ViolatedOnCreate(PriceTooHigh, b))
  {
    FilterTen(CreateOrder, OnCreate(b));
  }

  /** The violations on update, rule by rule in check order. */
  lemma UpdateViolationsUnrolled(b: Body)
    ensures UpdateViolations(b) ==
      Keep(NameNotNonEmpty, ViolatedOnUpdate(NameNotNonEmpty, b)) + Keep(NameTooLong, ViolatedOnUpdate(NameTooLong, b))
      + Keep(DescriptionNotNonEmpty, ViolatedOnUpdate(DescriptionNotNonEmpty, b)) + Keep(DescriptionTooLong, ViolatedOnUpdate(DescriptionTooLong, b))
      + Keep(PriceNotNonNegative, ViolatedOnUpdate(PriceNotNonNegative, b)) + Keep(PriceTooHigh, ViolatedOnUpdate(PriceTooHigh, b))
      + Keep(CategoryNotNonEmpty, ViolatedOnUpdate(CategoryNotNonEmpty, b)) + Keep(CategoryTooLong, ViolatedOnUpdate(CategoryTooLong, b))
      + Keep(InStockNotBoolean, ViolatedOnUpdate(InStockNotBoolean, b)) + Keep(NoFields, ViolatedOnUpdate(NoFields, b))
  {
    FilterTen(UpdateOrder, OnUpdate(b));
  }

  /** The messages of the violations on create, rule by rule in check order. */
  lemma CreateMessagesUnrolled(b: Body)
    ensures Messages(CreateViolations(b)) ==
      Keep(Message(NameRequired), ViolatedOnCreate(NameRequired, b))
      + Keep(Message(DescriptionRequired), ViolatedOnCreate(DescriptionRequired, b))
      + Keep(Message(PriceRequired), ViolatedOnCreate(PriceRequired, b))
      + Keep(Message(PriceNotNonNegative), ViolatedOnCreate(PriceNotNonNegative, b))
      + Keep(Message(CategoryRequired), ViolatedOnCreate(CategoryRequired, b))
      + Keep(Message(InStockNotBoolean), ViolatedOnCreate(InStockNotBoolean, b))
      + Keep(Message(NameTooLong), ViolatedOnCreate(NameTooLong, b))
      + Keep(Message(DescriptionTooLong), ViolatedOnCreate(DescriptionTooLong, b))
      + Keep(Message(CategoryTooLong), ViolatedOnCreate(CategoryTooLong, b))
      + Keep(Message(PriceTooHigh), ViolatedOnCreate(PriceTooHigh, b))
  {
    MapFilterTen(CreateOrder, OnCreate(b), Message);
  }

  /** The messages of the violations on update, rule by rule in check order. */
  lemma UpdateMessagesUnrolled(b: Body)
    ensures Messages(UpdateViolations(b)) ==
      Keep(Message(NameNotNonEmpty), ViolatedOnUpdate(NameNotNonEmpty, b))
      + Keep(Message(NameTooLong), ViolatedOnUpdate(NameTooLong, b))
      + Keep(Message(DescriptionNotNonEmpty), ViolatedOnUpdate(DescriptionNotNonEmpty, b))
      + Keep(Message(DescriptionTooLong), ViolatedOnUpdate(DescriptionTooLong, b))
      + Keep(Message(PriceNotNonNegative), ViolatedOnUpdate(PriceNotNonNegative, b))
      + Keep(Message(PriceTooHigh), ViolatedOnUpdate(PriceTooHigh, b))
      + Keep(Message(CategoryNotNonEmpty), ViolatedOnUpdate(CategoryNotNonEmpty, b))
      + Keep(Message(CategoryTooLong), ViolatedOnUpdate(CategoryTooLong, b))
      + Keep(Message(InStockNotBoolean), ViolatedOnUpdate(InStockNotBoolean, b))
      + Keep(Message(NoFields), ViolatedOnUpdate(NoFields, b))
  {
    MapFilterTen(UpdateOrder, OnUpdate(b), Message);
  }

  /** Each check `validateProduct` makes, as written there, decides its rule. */
  lemma CreateChecksAsWritten(b: Body, c0: bool, c1: bool, c2: bool, c3: bool, c4: bool,
                              c5: bool, c6: bool, c7: bool, c8: bool, c9: bool)
    requires c0 == (!Truthy(b.name) || !b.name.Str? || Blank(b.name.s))
    requires c1 == (!Truthy(b.description) || !b.description.Str? || Blank(b.description.s))
    requires c2 == (b.price.Undefined? || b.price.Null?)
    requires c3 == (!b.price.Num? || b.price.x < 0.0)
    requires c4 == (!Truthy(b.category) || !b.category.Str? || Blank(b.category.s))
    requires c5 == (!b.inStock.Undefined? && !b.inStock.Bool?)
    requires c6 == LengthOver(b.name, 100)
    requires c7 == LengthOver(b.description, 500)
    requires c8 == LengthOver(b.category, 50)
    requires c9 == (Truthy(b.price) && b.price.Num? && b.price.x > MaxPrice)
    ensures ViolatedOnCreate(NameRequired, b) == c0 && ViolatedOnCreate(DescriptionRequired, b) == c1
    ensures ViolatedOnCreate(PriceRequired, b) == c2 && ViolatedOnCreate(PriceNotNonNegative, b) == (!c2 && c3)
    ensures ViolatedOnCreate(CategoryRequired, b) == c4 && ViolatedOnCreate(InStockNotBoolean, b) == c5
    ensures ViolatedOnCreate(NameTooLong, b) == c6 && ViolatedOnCreate(DescriptionTooLong, b) == c7
    ensures ViolatedOnCreate(CategoryTooLong, b) == c8 && ViolatedOnCreate(PriceTooHigh, b) == c9
  {
  }


  /**
   * The messages of the violations on create, each kept when its check, as
   * `validateProduct` writes it, fails.
   */
  lemma CreateMessagesAsChecked(b: Body, c0: bool, c1: bool, c2: bool, c3: bool, c4: bool,
                                c5: bool, c6: bool, c7: bool, c8: bool, c9: bool)
    requires c0 == (!Truthy(b.name) || !b.name.Str? || Blank(b.name.s))
    requires c1 == (!Truthy(b.description) || !b.description.Str? || Blank(b.description.s))
    requires c2 == (b.price.Undefined? || b.price.Null?)
    requires c3 == (!b.price.Num? || b.price.x < 0.0)
    requires c4 == (!Truthy(b.category) || !b.category.Str? || Blank(b.category.s))
    requires c5 == (!b.inStock.Undefined? && !b.inStock.Bool?)
    requires c6 == LengthOver(b.name, 100)
    requires c7 == LengthOver(b.description, 500)
    requires c8 == LengthOver(b.category, 50)
    requires c9 == (Truthy(b.price) && b.price.Num? && b.price.x > MaxPrice)
    ensures Messages(CreateViolations(b)) ==
      Keep(NameRequiredText, c0) + Keep(DescriptionRequiredText, c1) + Keep(PriceRequiredText, c2)
      + Keep(PriceNotNonNegativeText, !c2 && c3) + Keep(CategoryRequiredText, c4)
      + Keep(InStockNotBooleanText, c5) + Keep(NameTooLongText, c6) + Keep(DescriptionTooLongText, c7)
      + Keep(CategoryTooLongText, c8) + Keep(PriceTooHighText, c9)
  {
    CreateMessagesUnrolled(b);
    CreateChecksAsWritten(b, c0, c1, c2, c3, c4, c5, c6, c7, c8, c9);
    assert Message(NameRequired) == NameRequiredText && Message(DescriptionRequired) == DescriptionRequiredText;
    assert Message(PriceRequired) == PriceRequiredText && Message(PriceNotNonNegative) == PriceNotNonNegativeText;
    assert Message(CategoryRequired) == CategoryRequiredText && Message(InStockNotBoolean) == InStockNotBooleanText;
    assert Message(NameTooLong) == NameTooLongText && Message(DescriptionTooLong) == DescriptionTooLongText;
    assert Message(CategoryTooLong) == CategoryTooLongText && Message(PriceTooHigh) == PriceTooHighText;
  }

  /**
   * The messages of the violations on update: for each field present, the
   * message of its first failed check, as `validateProductUpdate` writes them.
   */
  lemma UpdateMessagesAsChecked(b: Body,
                                p0: bool, c0: bool, d0: bool, p1: bool, c1: bool, d1: bool,
                                p2: bool, c2: bool, d2: bool, p3: bool, c3: bool, d3: bool,
                                c4: bool, c5: bool)
    requires p0 == !b.name.Undefined? && c0 == (!b.name.Str? || Blank(b.name.s))
    requires d0 == (b.name.Str? && |b.name.s| > 100)
    requires p1 == !b.description.Undefined? && c1 == (!b.description.Str? || Blank(b.description.s))
    requires d1 == (b.description.Str? && |b.description.s| > 500)
    requires p2 == !b.price.Undefined? && c2 == (!b.price.Num? || b.price.x < 0.0)
    requires d2 == (b.price.Num? && b.price.x > MaxPrice)
    requires p3 == !b.category.Undefined? && c3 == (!b.category.Str? || Blank(b.category.s))
    requires d3 == (b.category.Str? && |b.category.s| > 50)
    requires c4 == (!b.inStock.Undefined? && !b.inStock.Bool?)
    requires c5 == (KeyCount(b) == 0)
    ensures Messages(UpdateViolations(b)) ==
      Keep(NameNotNonEmptyText, p0 && c0) + Keep(NameTooLongText, p0 && !c0 && d0)
      + Keep(DescriptionNotNonEmptyText, p1 && c1) + Keep(DescriptionTooLongText, p1 && !c1 && d1)
      + Keep(PriceNotNonNegativeText, p2 && c2) + Keep(PriceTooHighText, p2 && !c2 && d2)
      + Keep(CategoryNotNonEmptyText, p3 && c3) + Keep(CategoryTooLongText, p3 && !c3 && d3)
      + Keep(InStockNotBooleanText, c4) + Keep(NoFieldsText, c5)
  {
    UpdateMessagesUnrolled(b);
    UpdateChecksAsWritten(b, p0, c0, d0, p1, c1, d1, p2, c2, d2, p3, c3, d3, c4, c5);
  }

  /** `if (failed) errors.push(message)`. */
  method PushIf(errors: seq<string>, failed: bool, message: string) returns (r: seq<string>)
    ensures r == errors + Keep(message, failed)
  {
    r := errors;
    if failed {
      r := r + [message];
    }
  }

  /** `if (first) errors.push(m1); else if (second) errors.push(m2);` */
  method PushFirst(errors: seq<string>, first: bool, m1: string, second: bool, m2: string)
    returns (r: seq<string>)
    ensures r == errors + Keep(m1, first) + Keep(m2, !first && second)
  {
    r := errors;
    if first {
      r := r + [m1];
    } else if second {
      r := r + [m2];
    }
  }

  /** `if (present) { if (first) errors.push(m1); else if (second) errors.push(m2); }` */
  method PushFirstIfPresent(errors: seq<string>, present: bool,
                            first: bool, m1: string, second: bool, m2: string)
    returns (r: seq<string>)
    ensures r == errors + Keep(m1, present && first) + Keep(m2, present && !first && second)
  {
    r := errors;
    if present {
      if first {
        r := r + [m1];
      } else if second {
        r := r + [m2];
      }
    }
  }

  /** Each check `validateProductUpdate` makes, as written there, decides its rule. */
  lemma UpdateChecksAsWritten(b: Body,
                              p0: bool, c0: bool, d0: bool, p1: bool, c1: bool, d1: bool,
                              p2: bool, c2: bool, d2: bool, p3: bool, c3: bool, d3: bool,
                              c4: bool, c5: bool)
    requires p0 == !b.name.Undefined? && c0 == (!b.name.Str? || Blank(b.name.s))
    requires d0 == (b.name.Str? && |b.name.s| > 100)
    requires p1 == !b.description.Undefined? && c1 == (!b.description.Str? || Blank(b.description.s))
    requires d1 == (b.description.Str? && |b.description.s| > 500)
    requires p2 == !b.price.Undefined? && c2 == (!b.price.Num? || b.price.x < 0.0)
    requires d2 == (b.price.Num? && b.price.x > MaxPrice)
    requires p3 == !b.category.Undefined? && c3 == (!b.category.Str? || Blank(b.category.s))
    requires d3 == (b.category.Str? && |b.category.s| > 50)
    requires c4 == (!b.inStock.Undefined? && !b.inStock.Bool?)
    requires c5 == (KeyCount(b) == 0)
    ensures ViolatedOnUpdate(NameNotNonEmpty, b) == (p0 && c0)
    ensures ViolatedOnUpdate(NameTooLong, b) == (p0 && !c0 && d0)
    ensures ViolatedOnUpdate(DescriptionNotNonEmpty, b) == (p1 && c1)
    ensures ViolatedOnUpdate(DescriptionTooLong, b) == (p1 && !c1 && d1)
    ensures ViolatedOnUpdate(PriceNotNonNegative, b) == (p2 && c2)
    ensures ViolatedOnUpdate(PriceTooHigh, b) == (p2 && !c2 && d2)
    ensures ViolatedOnUpdate(CategoryNotNonEmpty, b) == (p3 && c3)
    ensures ViolatedOnUpdate(CategoryTooLong, b) == (p3 && !c3 && d3)
    ensures ViolatedOnUpdate(InStockNotBoolean, b) == c4 && ViolatedOnUpdate(NoFields, b) == c5
  {
  }


  /** The end of both validators: `next(new ValidationError(...))` when any message was pushed, else `next()`. */
  method Respond(errors: seq<string>) returns (r: Check)
    ensures r == Verdict(errors)
    ensures r == Pass <==> errors == []
    ensures r.Fail? ==> r.error.Validation? && r.error.Status() == 400 && "Validation failed: " <= r.error.message
    ensures r.Fail? ==> forall k :: 0 <= k < |errors| ==> Includes(r.error.message, errors[k])
  {
    if |errors| > 0 {
      var message := "Validation failed: " + Join(errors, ", ");
      forall k | 0 <= k < |errors|
        ensures Includes(message, errors[k])
      {
        JoinIncludes(errors, ", ", k);
        IncludesWithin("Validation failed: ", Join(errors, ", "), "", errors[k]);
        assert "Validation failed: " + Join(errors, ", ") + "" == message;
      }
      r := Fail(Validation(message));
    } else {
      r := Pass;
    }
  }

  /** `validateProduct`: every check runs, each violated one pushes its message. */
  method ValidateProduct(b: Body) returns (r: Check)
    ensures r == Verdict(Messages(CreateViolations(b)))
  {
    var name, description, price, category := b.name, b.description, b.price, b.category;
    var nameMissing := !Truthy(name) || !name.Str? || Blank(name.s);
    var descriptionMissing := !Truthy(description) || !description.Str? || Blank(description.s);
    var priceMissing := price.Undefined? || price.Null?;
    var priceNegative := !price.Num? || price.x < 0.0;
    var categoryMissing := !Truthy(category) || !category.Str? || Blank(category.s);
    var stockNotBoolean := !b.inStock.Undefined? && !b.inStock.Bool?;
    var nameLong := LengthOver(name, 100);
    var descriptionLong := LengthOver(description, 500);
    var categoryLong := LengthOver(category, 50);
    var priceHigh := Truthy(price) && price.Num? && price.x > MaxPrice;
    var errors: seq<string> := [];
    errors := PushIf(errors, nameMissing, NameRequiredText);
    assert errors == Keep(NameRequiredText, nameMissing);
    errors := PushIf(errors, descriptionMissing, DescriptionRequiredText);
    errors := PushFirst(errors, priceMissing, PriceRequiredText,
      priceNegative, PriceNotNonNegativeText);
    errors := PushIf(errors, categoryMissing, CategoryRequiredText);
    errors := PushIf(errors, stockNotBoolean, InStockNotBooleanText);
    errors := PushIf(errors, nameLong, NameTooLongText);
    errors := PushIf(errors, descriptionLong, DescriptionTooLongText);
    errors := PushIf(errors, categoryLong, CategoryTooLongText);
    errors := PushIf(errors, priceHigh, PriceTooHighText);
    CreateMessagesAsChecked(b, nameMissing, descriptionMissing, priceMissing, priceNegative,
      categoryMissing, stockNotBoolean, nameLong, descriptionLong, categoryLong, priceHigh);
    r := Respond(errors);
  }

  /** `validateProductUpdate`: each present field adds at most one message. */
  method ValidateProductUpdate(b: Body) returns (r: Check)
    ensures r == Verdict(Messages(UpdateViolations(b)))
  {
    var name, description, price, category, inStock := b.name, b.description, b.price, b.category, b.inStock;
    var nameGiven, nameEmpty, nameLong :=
      !name.Undefined?, !name.Str? || Blank(name.s), name.Str? && |name.s| > 100;
    var descriptionGiven, descriptionEmpty, descriptionLong :=
      !description.Undefined?, !description.Str? || Blank(description.s), description.Str? && |description.s| > 500;
    var priceGiven, priceNegative, priceHigh :=
      !price.Undefined?, !price.Num? || price.x < 0.0, price.Num? && price.x > MaxPrice;
    var categoryGiven, categoryEmpty, categoryLong :=
      !category.Undefined?, !category.Str? || Blank(category.s), category.Str? && |category.s| > 50;
    var stockNotBoolean := !inStock.Undefined? && !inStock.Bool?;
    var noFields := KeyCount(b) == 0;
    var errors: seq<string> := [];
    errors := PushFirstIfPresent(errors, nameGiven,
      nameEmpty, NameNotNonEmptyText,
      nameLong, NameTooLongText);
    assert errors == Keep(NameNotNonEmptyText, nameGiven && nameEmpty)
      + Keep(NameTooLongText, nameGiven && !nameEmpty && nameLong);
    errors := PushFirstIfPresent(errors, descriptionGiven,
      descriptionEmpty, DescriptionNotNonEmptyText,
      descriptionLong, DescriptionTooLongText);
    errors := PushFirstIfPresent(errors, priceGiven,
      priceNegative, PriceNotNonNegativeText,
      priceHigh, PriceTooHighText);
    errors := PushFirstIfPresent(errors, categoryGiven,
      categoryEmpty, CategoryNotNonEmptyText,
      categoryLong, CategoryTooLongText);
    errors := PushIf(errors, stockNotBoolean, InStockNotBooleanText);
    errors := PushIf(errors, noFields, NoFieldsText);
    UpdateMessagesAsChecked(b, nameGiven, nameEmpty, nameLong, descriptionGiven, descriptionEmpty,
      descriptionLong, priceGiven, priceNegative, priceHigh, categoryGiven, categoryEmpty, categoryLong,
      stockNotBoolean, noFields);
    r := Respond(errors);
  }

  /** A body `validateProduct` accepts, stated field by field. */
  predicate CreateValid(b: Body) {
    && NonEmptyString(b.name) && |b.name.s| <= 100
    && NonEmptyString(b.description) && |b.description.s| <= 500
    && b.price.Num? && 0.0 <= b.price.x <= MaxPrice
    && NonEmptyString(b.category) && |b.category.s| <= 50
    && (b.inStock.Undefined? || b.inStock.Bool?)
  }

  /** A schema field `validateProductUpdate` accepts: absent, or a non-blank string of at most `cap` characters. */
  predicate UpdateTextValid(v: JsValue, cap: nat) {
    v.Undefined? || (NonEmptyString(v) && |v.s| <= cap)
  }

  /** A body `validateProductUpdate` accepts, stated field by field. */
  predicate UpdateValid(b: Body) {
    && UpdateTextValid(b.name, 100)
    && UpdateTextValid(b.description, 500)
    && (b.price.Undefined? || (b.price.Num? && 0.0 <= b.price.x <= MaxPrice))
    && UpdateTextValid(b.category, 50)
    && (b.inStock.Undefined? || b.inStock.Bool?)
    && KeyCount(b) > 0
  }

  /** The empty string is blank. */
  lemma EmptyIsBlank()
    ensures Blank([])
  {
    assert TrimStart([]) == [];
  }

  /** The create-time text check fails exactly for a value that is not a non-blank string. */
  lemma RequiredTextCheck(v: JsValue)
    ensures (!Truthy(v) || !v.Str? || Blank(v.s)) <==> !NonEmptyString(v)
  {
    EmptyIsBlank();
  }

  /** Any verdict: pass exactly when there is no violation, otherwise one error naming every violated rule's message. */
  lemma VerdictOfViolations(rs: seq<Rule>)
    ensures Verdict(Messages(rs)) == Pass <==> rs == []
    ensures rs != [] ==>
      Verdict(Messages(rs)) == Fail(Validation("Validation failed: " + Join(Messages(rs), ", ")))
    ensures rs != [] ==> forall k :: 0 <= k < |rs| ==>
      Includes(Verdict(Messages(rs)).error.message, Message(rs[k]))
  {
    if rs != [] {
      forall k | 0 <= k < |rs|
        ensures Includes(Verdict(Messages(rs)).error.message, Message(rs[k]))
      {
        JoinIncludes(Messages(rs), ", ", k);
        IncludesWithin("Validation failed: ", Join(Messages(rs), ", "), "", Message(rs[k]));
        assert "Validation failed: " + Join(Messages(rs), ", ") + ""
          == Verdict(Messages(rs)).error.message;
      }
    }
  }

  /** No rule is violated on create exactly when each of the ten checks passes. */
  lemma CreateViolationsEmpty(b: Body)
    ensures CreateViolations(b) == [] <==>
      && !ViolatedOnCreate(NameRequired, b) && !ViolatedOnCreate(DescriptionRequired, b)
      && !ViolatedOnCreate(PriceRequired, b) && !ViolatedOnCreate(PriceNotNonNegative, b)
      && !ViolatedOnCreate(CategoryRequired, b) && !ViolatedOnCreate(InStockNotBoolean, b)
      && !ViolatedOnCreate(NameTooLong, b) && !ViolatedOnCreate(DescriptionTooLong, b)
      && !ViolatedOnCreate(CategoryTooLong, b) && !ViolatedOnCreate(PriceTooHigh, b)
  {
    FilterEmpty(CreateOrder, OnCreate(b));
    assert NameRequired in CreateOrder && DescriptionRequired in CreateOrder;
    assert PriceRequired in CreateOrder && PriceNotNonNegative in CreateOrder;
    assert CategoryRequired in CreateOrder && InStockNotBoolean in CreateOrder;
    assert NameTooLong in CreateOrder && DescriptionTooLong in CreateOrder;
    assert CategoryTooLong in CreateOrder && PriceTooHigh in CreateOrder;
  }

  /** No rule is violated on update exactly when each of the ten checks passes. */
  lemma UpdateViolationsEmpty(b: Body)
    ensures UpdateViolations(b) == [] <==>
      && !ViolatedOnUpdate(NameNotNonEmpty, b) && !ViolatedOnUpdate(NameTooLong, b)
      && !ViolatedOnUpdate(DescriptionNotNonEmpty, b) && !ViolatedOnUpdate(DescriptionTooLong, b)
      && !ViolatedOnUpdate(PriceNotNonNegative, b) && !ViolatedOnUpdate(PriceTooHigh, b)
      && !ViolatedOnUpdate(CategoryNotNonEmpty, b) && !ViolatedOnUpdate(CategoryTooLong, b)
      && !ViolatedOnUpdate(InStockNotBoolean, b) && !ViolatedOnUpdate(NoFields, b)
  {
    FilterEmpty(UpdateOrder, OnUpdate(b));
    if UpdateViolations(b) == [] {
      assert NameNotNonEmpty in UpdateOrder && NameTooLong in UpdateOrder;
      assert DescriptionNotNonEmpty in UpdateOrder && DescriptionTooLong in UpdateOrder;
      assert PriceNotNonNegative in UpdateOrder && PriceTooHigh in UpdateOrder;
      assert CategoryNotNonEmpty in UpdateOrder && CategoryTooLong in UpdateOrder;
      assert InStockNotBoolean in UpdateOrder && NoFields in UpdateOrder;
    } else {
      var r := UpdateViolations(b)[0];
      FilterContains(UpdateOrder, OnUpdate(b), r);
      assert ViolatedOnUpdate(r, b);
    }
  }

  /** `validateProduct` lets a body through exactly when every field is acceptable. */
  lemma CreatePassIffValid(b: Body)
    ensures CreateViolations(b) == [] <==> CreateValid(b)
    ensures CreateValid(b) ==> CreatableBody(b)
  {
    CreateViolationsEmpty(b);
    RequiredTextCheck(b.name);
    RequiredTextCheck(b.description);
    RequiredTextCheck(b.category);
  }

  /** `validateProductUpdate` lets a body through exactly when every present field is acceptable and the body has a key. */
  lemma UpdatePassIffValid(b: Body)
    ensures UpdateViolations(b) == [] <==> UpdateValid(b)
    ensures UpdateValid(b) ==> PatchBody(b)
  {
    UpdateViolationsEmpty(b);
  }

  lemma InCreateViolations(b: Body, r: Rule)
    ensures r in CreateViolations(b) <==> r in CreateOrder && ViolatedOnCreate(r, b)
  {
    FilterContains(CreateOrder, OnCreate(b), r);
  }

  lemma InUpdateViolations(b: Body, r: Rule)
    ensures r in UpdateViolations(b) <==> r in UpdateOrder && ViolatedOnUpdate(r, b)
  {
    FilterContains(UpdateOrder, OnUpdate(b), r);
  }

  /** On create, a name, description or category that is not a non-blank string gets its own "is required" message. */
  lemma CreateRequiredTexts(b: Body)
    ensures NameRequired in CreateViolations(b) <==> !NonEmptyString(b.name)
    ensures DescriptionRequired in CreateViolations(b) <==> !NonEmptyString(b.description)
    ensures CategoryRequired in CreateViolations(b) <==> !NonEmptyString(b.category)
  {
    InCreateViolations(b, NameRequired);
    InCreateViolations(b, DescriptionRequired);
    InCreateViolations(b, CategoryRequired);
    RequiredTextCheck(b.name);
    RequiredTextCheck(b.description);
    RequiredTextCheck(b.category);
  }

  /**
   * On create, an undefined or null price is "required", any other non-number or
   * negative number is "non-negative", never both; a number above the cap is
   * rejected, and a price of 0 passes all three.
   */
  lemma CreatePriceRules(b: Body)
    ensures PriceRequired in CreateViolations(b) <==> b.price.Undefined? || b.price.Null?
    ensures PriceNotNonNegative in CreateViolations(b) <==>
      !(b.price.Undefined? || b.price.Null?) && !(b.price.Num? && b.price.x >= 0.0)
    ensures !(PriceRequired in CreateViolations(b) && PriceNotNonNegative in CreateViolations(b))
    ensures b.price.Num? ==> (PriceTooHigh in CreateViolations(b) <==> b.price.x > MaxPrice)
    ensures b.price == Num(0.0) ==>
      PriceRequired !in CreateViolations(b) && PriceNotNonNegative !in CreateViolations(b)
      && PriceTooHigh !in CreateViolations(b)
  {
    InCreateViolations(b, PriceRequired);
    InCreateViolations(b, PriceNotNonNegative);
    InCreateViolations(b, PriceTooHigh);
  }

  /**
   * On create, the length caps are strict: a string of exactly 100, 500 or 50
   * characters passes and one more is rejected, whether or not it is blank.
   */
  lemma CreateLengthCaps(b: Body)
    ensures b.name.Str? ==> (NameTooLong in CreateViolations(b) <==> |b.name.s| > 100)
    ensures b.description.Str? ==> (DescriptionTooLong in CreateViolations(b) <==> |b.description.s| > 500)
    ensures b.category.Str? ==> (CategoryTooLong in CreateViolations(b) <==> |b.category.s| > 50)
  {
    InCreateViolations(b, NameTooLong);
    InCreateViolations(b, DescriptionTooLong);
    InCreateViolations(b, CategoryTooLong);
  }

  /** Both validators reject a present `inStock` that is not a boolean, and nothing else, with the same message. */
  lemma InStockRule(b: Body)
    ensures InStockNotBoolean in CreateViolations(b) <==> !b.inStock.Undefined? && !b.inStock.Bool?
    ensures InStockNotBoolean in UpdateViolations(b) <==> !b.inStock.Undefined? && !b.inStock.Bool?
  {
    InCreateViolations(b, InStockNotBoolean);
    InUpdateViolations(b, InStockNotBoolean);
  }

  /**
   * On update, a text field adds at most one message: none when absent, the
   * emptiness message for a present value that is not a non-blank string, else
   * the length message when it is over the cap.
   */
  lemma UpdateTextRules(b: Body)
    ensures NameNotNonEmpty in UpdateViolations(b) <==> !b.name.Undefined? && !NonEmptyString(b.name)
    ensures NameTooLong in UpdateViolations(b) <==> NonEmptyString(b.name) && |b.name.s| > 100
    ensures DescriptionNotNonEmpty in UpdateViolations(b) <==>
      !b.description.Undefined? && !NonEmptyString(b.description)
    ensures DescriptionTooLong in UpdateViolations(b) <==>
      NonEmptyString(b.description) && |b.description.s| > 500
    ensures CategoryNotNonEmpty in UpdateViolations(b) <==> !b.category.Undefined? && !NonEmptyString(b.category)
    ensures CategoryTooLong in UpdateViolations(b) <==> NonEmptyString(b.category) && |b.category.s| > 50
  {
    UpdateTextRule(b, NameNotNonEmpty, NameTooLong, b.name, 100);
    UpdateTextRule(b, DescriptionNotNonEmpty, DescriptionTooLong, b.description, 500);
    UpdateTextRule(b, CategoryNotNonEmpty, CategoryTooLong, b.category, 50);
  }

  /** One text field's pair of update rules. */
  lemma UpdateTextRule(b: Body, empty: Rule, long: Rule, v: JsValue, cap: nat)
    requires (empty, long, v, cap) in
      {(NameNotNonEmpty, NameTooLong, b.name, 100),
       (DescriptionNotNonEmpty, DescriptionTooLong, b.description, 500),
       (CategoryNotNonEmpty, CategoryTooLong, b.category, 50)}
    ensures empty in UpdateViolations(b) <==> !v.Undefined? && !NonEmptyString(v)
    ensures long in UpdateViolations(b) <==> NonEmptyString(v) && |v.s| > cap
  {
    InUpdateViolations(b, empty);
    InUpdateViolations(b, long);
  }

  /** On update, a present price is either not a non-negative number, or over the cap, or fine; an absent one adds nothing. */
  lemma UpdatePriceRules(b: Body)
    ensures PriceNotNonNegative in UpdateViolations(b) <==>
      !b.price.Undefined? && !(b.price.Num? && b.price.x >= 0.0)
    ensures PriceTooHigh in UpdateViolations(b) <==> b.price.Num? && b.price.x > MaxPrice
  {
    InUpdateViolations(b, PriceNotNonNegative);
    InUpdateViolations(b, PriceTooHigh);
  }

  /** On update, the "at least one field" message is given exactly for a body without keys. */
  lemma UpdateNoFieldsRule(b: Body)
    ensures NoFields in UpdateViolations(b) <==> KeyCount(b) == 0
  {
    InUpdateViolations(b, NoFields);
  }

  /** A name of 101 spaces breaks two rules on create but only the first check of its field on update. */
  lemma BlankLongName(b: Body)
    requires b.name == Str(seq(101, _ => ' '))
    ensures NameRequired in CreateViolations(b) && NameTooLong in CreateViolations(b)
    ensures NameNotNonEmpty in UpdateViolations(b) && NameTooLong !in UpdateViolations(b)
  {
    BlankIffAllWhiteSpace(b.name.s);
    CreateRequiredTexts(b);
    CreateLengthCaps(b);
    UpdateTextRules(b);
  }

  /** An empty update body fails with the single "at least one field" message. */
  lemma EmptyUpdateBody(b: Body)
    requires KeyCount(b) == 0
    ensures Verdict(Messages(UpdateViolations(b))) == Fail(Validation("Validation failed: " + NoFieldsText))
  {
    UpdateViolationsUnrolled(b);
    assert UpdateViolations(b) == [NoFields];
    assert Messages([NoFields])[0] == Message(NoFields) == NoFieldsText;
    assert Messages([NoFields]) == [NoFieldsText];
  }

  /** An update body whose only keys are outside the schema passes. */
  lemma UnknownKeysOnlyPass(otherKeys: nat)
    requires otherKeys > 0
    ensures Verdict(Messages(UpdateViolations(Body(Undefined, Undefined, Undefined, Undefined, Undefined, otherKeys))))
      == Pass
  {
    UpdatePassIffValid(Body(Undefined, Undefined, Undefined, Undefined, Undefined, otherKeys));
  }
}
