/**
 * The point-of-sale order form of the employee dashboard: its state, the
 * handlers that edit it field by field and item by item, and the submit
 * handler that validates it in a fixed order and builds the order payload.
 */
module OrderForm {
  import opened Wrappers
  import opened Text
  import opened Pricing

  /** The two radio choices of the form. */
  datatype DeliveryMethod = Pickup | Deliver

  /** One `handleChange` event: the input that changed and its new value. */
  datatype FieldChange =
    | CustomerName(value: string)
    | CustomerPhone(value: string)
    | CustomerEmail(value: string)
    | Notes(value: string)
    | PickupDate(value: string)
    | DeliveryDate(value: string)
    | Method(chosen: DeliveryMethod)

  /** One `handleItemChange` event: the item field that changed and its new value. */
  datatype ItemChange =
    | Quantity(count: int)
    | Name(text: string)
    | Service(service: Option<ServiceType>)

  /** The first check that rejects a submission. */
  datatype SubmitError =
    | NameRequired
    | PhoneInvalid
    | EmailInvalid
    | ItemsRequired
    | ItemNameRequired
    | DateInPast(chosen: DeliveryMethod)
    | DateRequired(chosen: DeliveryMethod)

  /** The order handed to the save callback; it has no order-level service type. */
  datatype Payload = Payload(
    customerName: string,
    customerPhone: string,
    customerEmail: string,
    items: seq<Item>,
    totalAmount: int,
    notes: string,
    pickupDate: string,
    deliveryDate: string,
    deliveryMethod: DeliveryMethod)

  /** The item the form starts with and the one "Add Item" appends. */
  const BlankItem := Item("", 1, Some(WashDry))

  /** The longest phone number the form keeps. */
  const MaxPhoneDigits := 11

  /** The phone field after an edit: the digits of the input, cut to 11. */
  function PhoneInput(value: string): (r: string)
    ensures IsDigits(r) && |r| <= MaxPhoneDigits
    ensures |r| == if |DigitsOnly(value)| < MaxPhoneDigits then |DigitsOnly(value)| else MaxPhoneDigits
    ensures r == DigitsOnly(value)[..|r|]
  {
    var digits := DigitsOnly(value);
    if |digits| <= MaxPhoneDigits then digits else digits[..MaxPhoneDigits]
  }

  /** An item whose name is empty after trimming. */
  predicate HasUnnamedItem(items: seq<Item>) {
    exists k :: 0 <= k < |items| && Blank(items[k].name)
  }

  /** An item whose name is not empty after trimming. */
  predicate HasNamedItem(items: seq<Item>) {
    exists k :: 0 <= k < |items| && !Blank(items[k].name)
  }

  /** `items.map(item => ({...item, name: item.name.trim()}))`. */
  function TrimNames(items: seq<Item>): (r: seq<Item>)
    ensures |r| == |items|
    ensures forall k :: 0 <= k < |items| ==> r[k] == items[k].(name := Trim(items[k].name))
  {
    seq(|items|, k requires 0 <= k < |items| => items[k].(name := Trim(items[k].name)))
  }

  /** Items whose names are stored trimmed are left as they are by `TrimNames`. */
  lemma TrimNamesOfTrimmed(items: seq<Item>)
    requires forall k :: 0 <= k < |items| ==> ItemOk(items[k])
    ensures TrimNames(items) == items
  {
    forall k | 0 <= k < |items|
      ensures TrimNames(items)[k] == items[k]
    {
      assert ItemOk(items[k]);
      TrimOfTrimmed(items[k].name);
    }
  }

  /**
   * "Add Item" does not refresh the total: a total that matched the items
   * before now falls short of the new items' total by the price of the blank
   * item.
   */
  lemma AddItemLeavesTotalStale(items: seq<Item>)
    ensures ComputeTotal(items + [BlankItem]) == ComputeTotal(items) + 100
  {
    assert (items + [BlankItem])[..|items|] == items;
  }

  /** The date of the chosen method lies before `today` (ISO dates compare as strings). */
  predicate ChosenDateInPast(chosen: DeliveryMethod, pickup: string, delivery: string, today: string) {
    if chosen == Pickup then pickup != [] && StrLess(pickup, today)
    else delivery != [] && StrLess(delivery, today)
  }

  predicate ChosenDateMissing(chosen: DeliveryMethod, pickup: string, delivery: string) {
    if chosen == Pickup then pickup == [] else delivery == []
  }

  /**
   * The checks of the submit handler, in the order it runs them: the first
   * one that fails, or `None` when the form is accepted.
   */
  function FirstFailure(name: string, phone: string, email: string, items: seq<Item>,
                        chosen: DeliveryMethod, pickup: string, delivery: string, today: string): Option<SubmitError>
  {
    if Blank(name) then Some(NameRequired)
    else if !(10 <= |DigitsOnly(phone)| <= 11) then Some(PhoneInvalid)
    else if email != [] && !IsEmail(Trim(email)) then Some(EmailInvalid)
    else if !HasNamedItem(items) then Some(ItemsRequired)
    else if HasUnnamedItem(items) then Some(ItemNameRequired)
    else if ChosenDateInPast(chosen, pickup, delivery, today) then Some(DateInPast(chosen))
    else if ChosenDateMissing(chosen, pickup, delivery) then Some(DateRequired(chosen))
    else None
  }

  /** A stored item: positive quantity and a trimmed name. */
  predicate ItemOk(item: Item) {
    item.quantity >= 1 && IsTrimmed(item.name)
  }

  /** The form's item list: never empty, every item stored as `ItemOk` says. */
  predicate ItemsOk(items: seq<Item>) {
    |items| >= 1 && forall k :: 0 <= k < |items| ==> ItemOk(items[k])
  }

  /**
   * The total and the service type match the items, unless some item is
   * still unnamed (which blocks submission).
   */
  predicate InSync(items: seq<Item>, total: int, service: ServiceType) {
    HasUnnamedItem(items) || (total == ComputeTotal(items) && service == DetermineServiceType(items))
  }

  lemma ItemsOkUpdate(items: seq<Item>, index: nat, item: Item)
    requires ItemsOk(items) && index < |items| && ItemOk(item)
    ensures ItemsOk(items[index := item])
  {
  }

  lemma ItemsOkAppend(items: seq<Item>)
    requires ItemsOk(items)
    ensures ItemsOk(items + [BlankItem])
    ensures HasUnnamedItem(items + [BlankItem])
  {
    var r := items + [BlankItem];
    assert r[|items|] == BlankItem;
    assert Blank(r[|items|].name);
    forall k | 0 <= k < |r|
      ensures ItemOk(r[k])
    {
      if k < |items| {
        assert r[k] == items[k];
      }
    }
  }

  /**
   * `items.filter((_, i) => i !== index)`: the items other than the one at
   * `index`, in their order; all of them when `index` is out of range.
   */
  function RemoveAt(items: seq<Item>, index: int): (r: seq<Item>)
    ensures 0 <= index < |items| ==> |r| == |items| - 1
    ensures 0 <= index < |items| ==> forall k :: 0 <= k < |r| ==> r[k] == items[if k < index then k else k + 1]
    ensures !(0 <= index < |items|) ==> r == items
  {
    if 0 <= index < |items| then items[..index] + items[index + 1..] else items
  }

  lemma ItemsOkRemove(items: seq<Item>, index: int)
    requires ItemsOk(items) && |items| > 1
    ensures ItemsOk(RemoveAt(items, index))
  {
    var r := RemoveAt(items, index);
    forall k | 0 <= k < |r|
      ensures ItemOk(r[k])
    {
      if 0 <= index < |items| {
        var j := if k < index then k else k + 1;
        assert r[k] == items[j];
      }
    }
  }

  /**
   * The order an accepted submission sends: the trimmed name, the phone's
   * digits, the trimmed email (an empty email is sent as is), the items with
   * trimmed names, the total as it stands, and only the chosen method's date.
   */
  function Accepted(name: string, phone: string, email: string, items: seq<Item>, total: int, notes: string,
                    chosen: DeliveryMethod, pickup: string, delivery: string): (p: Payload)
    ensures p.customerEmail == Trim(email)
    ensures p.deliveryMethod == chosen && p.notes == notes && p.totalAmount == total
    ensures chosen == Pickup ==> p.pickupDate == pickup && p.deliveryDate == []
    ensures chosen == Deliver ==> p.deliveryDate == delivery && p.pickupDate == []
  {
    var mail := if email != [] then Trim(email) else email;
    assert email == [] ==> Trim(email) == [] by {
      if email == [] {
        assert AllSpace(email);
      }
    }
    Payload(Trim(name), DigitsOnly(phone), mail, TrimNames(items), total, notes,
            if chosen == Pickup then pickup else [],
            if chosen == Deliver then delivery else [],
            chosen)
  }

  // Every order the form accepts is well formed. Each lemma below assumes
  // that no check of the submit handler fails and that the form is in the
  // state its handlers keep it in (see `Form.Valid`).

  /** The name is sent as stored: non-empty and already trimmed. */
  lemma AcceptedName(name: string, phone: string, email: string, items: seq<Item>, total: int, notes: string,
                     chosen: DeliveryMethod, pickup: string, delivery: string, today: string)
    requires IsTrimmed(name)
    requires FirstFailure(name, phone, email, items, chosen, pickup, delivery, today) == None
    ensures Accepted(name, phone, email, items, total, notes, chosen, pickup, delivery).customerName == name
    ensures name != [] && IsTrimmed(name)
  {
    TrimOfTrimmed(name);
  }

  /** The phone is sent as stored (digits only), and it has 10 or 11 digits. */
  lemma AcceptedPhone(name: string, phone: string, email: string, items: seq<Item>, total: int, notes: string,
                      chosen: DeliveryMethod, pickup: string, delivery: string, today: string)
    requires IsDigits(phone)
    requires FirstFailure(name, phone, email, items, chosen, pickup, delivery, today) == None
    ensures Accepted(name, phone, email, items, total, notes, chosen, pickup, delivery).customerPhone == phone
    ensures 10 <= |phone| <= 11
  {
  }

  /** The email is sent trimmed, and it is empty or has the shape `a@b.c`. */
  lemma AcceptedEmail(name: string, phone: string, email: string, items: seq<Item>, total: int, notes: string,
                      chosen: DeliveryMethod, pickup: string, delivery: string, today: string)
    requires FirstFailure(name, phone, email, items, chosen, pickup, delivery, today) == None
    ensures var mail := Accepted(name, phone, email, items, total, notes, chosen, pickup, delivery).customerEmail;
      mail == Trim(email) && (mail == [] || IsEmail(mail))
  {
    assert !(email != [] && !IsEmail(Trim(email)));
    if email == [] {
      assert Trim(email) == [];
    }
  }

  /**
   * The items are sent as stored, all named, and the total sent is theirs
   * (it cannot be the stale total "Add Item" leaves, since that comes with
   * an unnamed item).
   */
  lemma AcceptedItems(name: string, phone: string, email: string, items: seq<Item>, total: int,
                      service: ServiceType, notes: string,
                      chosen: DeliveryMethod, pickup: string, delivery: string, today: string)
    requires ItemsOk(items) && InSync(items, total, service)
    requires FirstFailure(name, phone, email, items, chosen, pickup, delivery, today) == None
    ensures Accepted(name, phone, email, items, total, notes, chosen, pickup, delivery).items == items
    ensures !HasUnnamedItem(items) && HasNamedItem(items)
    ensures Accepted(name, phone, email, items, total, notes, chosen, pickup, delivery).totalAmount
            == ComputeTotal(items)
    ensures service == DetermineServiceType(items)
  {
    AcceptedHasNoUnnamedItem(name, phone, email, items, chosen, pickup, delivery, today);
    SyncedTotal(items, total, service);
    TrimNamesOfTrimmed(items);
  }

  /** The chosen method's date is present and not before `today`; the other one is empty. */
  lemma AcceptedDates(name: string, phone: string, email: string, items: seq<Item>, total: int, notes: string,
                      chosen: DeliveryMethod, pickup: string, delivery: string, today: string)
    requires FirstFailure(name, phone, email, items, chosen, pickup, delivery, today) == None
    ensures var p := Accepted(name, phone, email, items, total, notes, chosen, pickup, delivery);
      (chosen == Pickup ==> p.pickupDate == pickup != [] && !StrLess(pickup, today) && p.deliveryDate == [])
      && (chosen == Deliver ==> p.deliveryDate == delivery != [] && !StrLess(delivery, today) && p.pickupDate == [])
  {
    assert !ChosenDateInPast(chosen, pickup, delivery, today) && !ChosenDateMissing(chosen, pickup, delivery);
  }

  /**
   * Submitting is idempotent. The normalised fields (trimmed name and email,
   * digits-only phone, trimmed item names) pass every check that the raw
   * fields passed, whatever the other method's date (`NormalizedRevalidates`),
   * and normalising the sent order again yields the same order
   * (`AcceptedFixedPoint`).
   */
  lemma NormalizedRevalidates(name: string, phone: string, email: string, items: seq<Item>,
                              chosen: DeliveryMethod, pickup: string, delivery: string, today: string)
    requires !Blank(name) && 10 <= |DigitsOnly(phone)| <= 11 && (email != [] ==> IsEmail(Trim(email)))
    requires HasNamedItem(items) && !HasUnnamedItem(items)
    requires !ChosenDateInPast(chosen, pickup, delivery, today) && !ChosenDateMissing(chosen, pickup, delivery)
    ensures FirstFailure(Trim(name), DigitsOnly(phone), Trim(email), TrimNames(items), chosen,
                         if chosen == Pickup then pickup else [], if chosen == Deliver then delivery else [],
                         today) == None
  {
    var pickup', delivery' := if chosen == Pickup then pickup else [], if chosen == Deliver then delivery else [];
    TrimNotBlank(name);
    assert DigitsOnly(DigitsOnly(phone)) == DigitsOnly(phone);
    TrimmedEmailRevalidates(email);
    TrimNamesKeepsNamed(items);
    assert !ChosenDateInPast(chosen, pickup', delivery', today) && !ChosenDateMissing(chosen, pickup', delivery');
    NoFailure(Trim(name), DigitsOnly(phone), Trim(email), TrimNames(items), chosen, pickup', delivery', today);
  }

  /** When no check fails, `FirstFailure` reports none. */
  lemma NoFailure(name: string, phone: string, email: string, items: seq<Item>,
                  chosen: DeliveryMethod, pickup: string, delivery: string, today: string)
    requires !Blank(name) && 10 <= |DigitsOnly(phone)| <= 11 && (email != [] ==> IsEmail(Trim(email)))
    requires HasNamedItem(items) && !HasUnnamedItem(items)
    requires !ChosenDateInPast(chosen, pickup, delivery, today) && !ChosenDateMissing(chosen, pickup, delivery)
    ensures FirstFailure(name, phone, email, items, chosen, pickup, delivery, today) == None
  {
  }

  lemma TrimNotBlank(s: string)
    requires !Blank(s)
    ensures !Blank(Trim(s))
  {
    assert Trim(s) != [];
  }

  lemma AcceptedFixedPoint(name: string, phone: string, email: string, items: seq<Item>, total: int, notes: string,
                           chosen: DeliveryMethod, pickup: string, delivery: string)
    ensures var p := Accepted(name, phone, email, items, total, notes, chosen, pickup, delivery);
      Accepted(p.customerName, p.customerPhone, p.customerEmail, p.items, p.totalAmount, p.notes,
               chosen, p.pickupDate, p.deliveryDate) == p
  {
    var p := Accepted(name, phone, email, items, total, notes, chosen, pickup, delivery);
    var q := Accepted(p.customerName, p.customerPhone, p.customerEmail, p.items, p.totalAmount, p.notes,
                      chosen, p.pickupDate, p.deliveryDate);
    assert q.customerName == p.customerName by {
      TrimOfTrimmed(p.customerName);
    }
    assert q.customerEmail == p.customerEmail by {
      TrimOfTrimmed(p.customerEmail);
    }
    assert q.customerPhone == p.customerPhone;
    assert q.items == p.items by {
      TrimNamesTwice(items);
    }
  }

  lemma TrimNamesTwice(items: seq<Item>)
    ensures TrimNames(TrimNames(items)) == TrimNames(items)
  {
    forall k | 0 <= k < |items|
      ensures TrimNames(TrimNames(items))[k] == TrimNames(items)[k]
    {
      TrimOfTrimmed(Trim(items[k].name));
    }
  }

  /** Trimming the names of items that all have a name leaves them all named. */
  lemma TrimNamesKeepsNamed(items: seq<Item>)
    requires HasNamedItem(items) && !HasUnnamedItem(items)
    ensures HasNamedItem(TrimNames(items)) && !HasUnnamedItem(TrimNames(items))
  {
    var r := TrimNames(items);
    var k :| 0 <= k < |items| && !Blank(items[k].name);
    assert r[k].name == Trim(items[k].name);
    forall j | 0 <= j < |r|
      ensures !Blank(r[j].name)
    {
      assert !Blank(items[j].name);
      assert r[j].name == Trim(items[j].name);
    }
  }

  /** The email sent passes the email check again. */
  lemma TrimmedEmailRevalidates(email: string)
    requires email != [] ==> IsEmail(Trim(email))
    ensures Trim(email) != [] ==> IsEmail(Trim(Trim(email)))
  {
    TrimOfTrimmed(Trim(email));
    if email == [] {
      assert AllSpace(email);
    }
  }

  /** A three-digit phone is refused once the name check passes. */
  lemma ShortPhoneRefused(name: string, email: string, items: seq<Item>,
                          chosen: DeliveryMethod, pickup: string, delivery: string, today: string)
    requires !Blank(name)
    ensures FirstFailure(name, "123", email, items, chosen, pickup, delivery, today) == Some(PhoneInvalid)
  {
    assert IsDigits("123");
  }

  /** A pickup order dated before today is refused as lying in the past once the earlier checks pass. */
  lemma PastPickupRefused(name: string, phone: string, email: string, items: seq<Item>,
                          pickup: string, delivery: string, today: string)
    requires FirstFailure(name, phone, email, items, Pickup, today, delivery, today) == None
    requires pickup != [] && StrLess(pickup, today)
    ensures FirstFailure(name, phone, email, items, Pickup, pickup, delivery, today) == Some(DateInPast(Pickup))
  {
    StrLessIrreflexive(today);
  }

  lemma AcceptedHasNoUnnamedItem(name: string, phone: string, email: string, items: seq<Item>,
                                 chosen: DeliveryMethod, pickup: string, delivery: string, today: string)
    requires FirstFailure(name, phone, email, items, chosen, pickup, delivery, today) == None
    ensures !HasUnnamedItem(items) && HasNamedItem(items)
  {
  }

  lemma SyncedTotal(items: seq<Item>, total: int, service: ServiceType)
    requires InSync(items, total, service) && !HasUnnamedItem(items)
    ensures total == ComputeTotal(items) && service == DetermineServiceType(items)
  {
  }

  /** The part of the form's state its handlers keep consistent (see `Form.Valid`). */
  predicate StateOk(name: string, phone: string, items: seq<Item>, total: int, service: ServiceType) {
    ItemsOk(items)
    && IsDigits(phone) && |phone| <= MaxPhoneDigits
    && IsTrimmed(name)
    && InSync(items, total, service)
  }

  /** Replacing the name by a trimmed one or the phone by a `PhoneInput` result keeps `StateOk`. */
  lemma ContactStateOk(name: string, phone: string, items: seq<Item>, total: int, service: ServiceType,
                       name': string, phone': string)
    requires StateOk(name, phone, items, total, service)
    requires IsTrimmed(name') && IsDigits(phone') && |phone'| <= MaxPhoneDigits
    ensures StateOk(name', phone', items, total, service)
  {
  }

  /** One item after a `handleItemChange` edit: a quantity below 1 becomes 1, a name is trimmed. */
  function EditItem(item: Item, change: ItemChange): (edited: Item)
    ensures ItemOk(item) ==> ItemOk(edited)
    ensures change.Quantity? ==> edited == item.(quantity := if change.count < 1 then 1 else change.count)
    ensures change.Name? ==> edited == item.(name := Trim(change.text))
    ensures change.Service? ==> edited == item.(service := change.service)
  {
    match change
    case Quantity(count) => item.(quantity := if count < 1 then 1 else count)
    case Name(text) => item.(name := Trim(text))
    case Service(service) => item.(service := service)
  }

  /** Items stored well, with the total and service type recomputed from them, keep the state well formed. */
  lemma SyncedStateOk(name: string, phone: string, items: seq<Item>, total: int)
    requires IsDigits(phone) && |phone| <= MaxPhoneDigits && IsTrimmed(name)
    requires ItemsOk(items) && total == ComputeTotal(items)
    ensures StateOk(name, phone, items, total, DetermineServiceType(items))
  {
  }

  class Form {
    var customerName: string
    var customerPhone: string
    var customerEmail: string
    var items: seq<Item>
    var serviceType: ServiceType
    var totalAmount: int
    var notes: string
    var pickupDate: string
    var deliveryDate: string
    var deliveryMethod: DeliveryMethod

    /**
     * What every handler keeps: at least one item, positive quantities,
     * trimmed names, a phone of at most 11 digits, and a total and service
     * type that match the items unless some item is still unnamed (an
     * unnamed item blocks submission, so a stale total is never sent).
     */
    ghost predicate Valid()
      reads this
    {
      StateOk(customerName, customerPhone, items, totalAmount, serviceType)
    }

    /** The empty form: one blank item, delivery chosen, no dates. */
    constructor ()
      ensures Valid()
      ensures customerName == [] && customerPhone == [] && customerEmail == [] && notes == []
      ensures items == [BlankItem] && serviceType == Mixed && totalAmount == 0
      ensures pickupDate == [] && deliveryDate == [] && deliveryMethod == Deliver
    {
      customerName, customerPhone, customerEmail, notes := [], [], [], [];
      items := [BlankItem];
      serviceType, totalAmount := Mixed, 0;
      pickupDate, deliveryDate := [], [];
      deliveryMethod := Deliver;
      new;
      assert Blank(items[0].name);
      assert ItemOk(items[0]);
    }

    /**
     * `handleChange`: stores the new value, keeping only the first 11 digits
     * of a phone and trimming a name; choosing a method clears the other
     * method's date, and a pickup date later than the delivery date clears
     * the delivery date. The items, total and service type are untouched.
     */
    method HandleChange(change: FieldChange)
      requires Valid()
      modifies this
      ensures Valid()
      ensures items == old(items) && totalAmount == old(totalAmount) && serviceType == old(serviceType)
      ensures customerName == if change.CustomerName? then Trim(change.value) else old(customerName)
      ensures customerPhone == if change.CustomerPhone? then PhoneInput(change.value) else old(customerPhone)
      ensures customerEmail == if change.CustomerEmail? then change.value else old(customerEmail)
      ensures notes == if change.Notes? then change.value else old(notes)
      ensures deliveryMethod == if change.Method? then change.chosen else old(deliveryMethod)
      ensures pickupDate ==
        if change.PickupDate? then change.value
        else if change == Method(Deliver) then []
        else old(pickupDate)
      ensures deliveryDate ==
        if change.DeliveryDate? then change.value
        else if change == Method(Pickup) then []
        else if change.PickupDate? && old(deliveryDate) != [] && StrLess(old(deliveryDate), change.value) then []
        else old(deliveryDate)
    {
      match change {
        case CustomerName(value) =>
          ChangeName(value);
        case CustomerPhone(value) =>
          ChangePhone(value);
        case CustomerEmail(value) =>
          customerEmail := value;
        case Notes(value) =>
          notes := value;
        case _ =>
          ChangeSchedule(change);
      }
    }

    /** The name branch of `handleChange`: the name is stored trimmed, nothing else changes. */
    method ChangeName(value: string)
      requires Valid()
      modifies this
      ensures Valid()
      ensures customerName == Trim(value) && customerPhone == old(customerPhone)
      ensures customerEmail == old(customerEmail) && notes == old(notes) && deliveryMethod == old(deliveryMethod)
      ensures items == old(items) && totalAmount == old(totalAmount) && serviceType == old(serviceType)
      ensures pickupDate == old(pickupDate) && deliveryDate == old(deliveryDate)
    {
      var name := customerName;
      customerName := Trim(value);
      ContactStateOk(name, customerPhone, items, totalAmount, serviceType, customerName, customerPhone);
    }

    /** The phone branch of `handleChange`: the phone is cut to its first 11 digits, nothing else changes. */
    method ChangePhone(value: string)
      requires Valid()
      modifies this
      ensures Valid()
      ensures customerPhone == PhoneInput(value) && customerName == old(customerName)
      ensures customerEmail == old(customerEmail) && notes == old(notes) && deliveryMethod == old(deliveryMethod)
      ensures items == old(items) && totalAmount == old(totalAmount) && serviceType == old(serviceType)
      ensures pickupDate == old(pickupDate) && deliveryDate == old(deliveryDate)
    {
      var phone := customerPhone;
      customerPhone := PhoneInput(value);
      ContactStateOk(customerName, phone, items, totalAmount, serviceType, customerName, customerPhone);
    }

    /** The date and method branches of `handleChange`; only the schedule fields change. */
    method ChangeSchedule(change: FieldChange)
      requires Valid()
      requires change.PickupDate? || change.DeliveryDate? || change.Method?
      modifies this
      ensures Valid()
      ensures customerName == old(customerName) && customerPhone == old(customerPhone)
      ensures customerEmail == old(customerEmail) && notes == old(notes)
      ensures items == old(items) && totalAmount == old(totalAmount) && serviceType == old(serviceType)
      ensures deliveryMethod == if change.Method? then change.chosen else old(deliveryMethod)
      ensures pickupDate ==
        if change.PickupDate? then change.value
        else if change == Method(Deliver) then []
        else old(pickupDate)
      ensures deliveryDate ==
        if change.DeliveryDate? then change.value
        else if change == Method(Pickup) then []
        else if change.PickupDate? && old(deliveryDate) != [] && StrLess(old(deliveryDate), change.value) then []
        else old(deliveryDate)
    {
      match change {
        case PickupDate(value) =>
          var clearDelivery := deliveryDate != [] && StrLess(deliveryDate, value);
          pickupDate := value;
          if clearDelivery {
            deliveryDate := [];
          }
        case DeliveryDate(value) =>
          deliveryDate := value;
        case Method(chosen) =>
          deliveryMethod := chosen;
          if chosen == Pickup {
            deliveryDate := [];
          } else {
            pickupDate := [];
          }
      }
    }

    /**
     * `handleItemChange`: edits one field of the item at `index` (a quantity
     * below 1 is stored as 1, a name is stored trimmed), leaves the other
     * items as they were, and recomputes the total and the service type.
     */
    method HandleItemChange(index: nat, change: ItemChange)
      requires Valid()
      requires index < |items|
      modifies this
      ensures Valid()
      ensures |items| == |old(items)|
      ensures forall k :: 0 <= k < |items| && k != index ==> items[k] == old(items)[k]
      ensures change.Quantity? ==>
        items[index] == old(items)[index].(quantity := if change.count < 1 then 1 else change.count)
      ensures change.Name? ==> items[index] == old(items)[index].(name := Trim(change.text))
      ensures change.Service? ==> items[index] == old(items)[index].(service := change.service)
      ensures totalAmount == ComputeTotal(items) && serviceType == DetermineServiceType(items)
      ensures customerName == old(customerName) && customerPhone == old(customerPhone)
      ensures customerEmail == old(customerEmail) && notes == old(notes)
      ensures pickupDate == old(pickupDate) && deliveryDate == old(deliveryDate)
      ensures deliveryMethod == old(deliveryMethod)
    {
      var item := EditItem(items[index], change);
      assert ItemOk(item) by {
        assert ItemOk(items[index]);
      }
      ItemsOkUpdate(items, index, item);
      var newItems := items[index := item];
      var total := TotalOf(newItems);
      SyncedStateOk(customerName, customerPhone, newItems, total);
      items := newItems;
      totalAmount := total;
      serviceType := DetermineServiceType(newItems);
    }

    /**
     * `addItem`: appends a blank wash-and-dry item of quantity 1 and
     * recomputes the service type, but keeps the old total.
     */
    method AddItem()
      requires Valid()
      modifies this
      ensures Valid()
      ensures items == old(items) + [BlankItem]
      ensures serviceType == DetermineServiceType(items)
      ensures totalAmount == old(totalAmount)
      ensures customerName == old(customerName) && customerPhone == old(customerPhone)
      ensures customerEmail == old(customerEmail) && notes == old(notes)
      ensures pickupDate == old(pickupDate) && deliveryDate == old(deliveryDate)
      ensures deliveryMethod == old(deliveryMethod)
    {
      ItemsOkAppend(items);
      items := items + [BlankItem];
      serviceType := DetermineServiceType(items);
    }

    /**
     * `removeItem`: with one item, does nothing. Otherwise drops the item at
     * `index` (no item when `index` is out of range), keeps the rest in
     * order, and recomputes the total and the service type.
     */
    method RemoveItem(index: int)
      requires Valid()
      modifies this
      ensures Valid()
      ensures |old(items)| == 1 ==>
        items == old(items) && totalAmount == old(totalAmount) && serviceType == old(serviceType)
      ensures |old(items)| > 1 ==>
        items == RemoveAt(old(items), index)
        && totalAmount == ComputeTotal(items) && serviceType == DetermineServiceType(items)
      ensures customerName == old(customerName) && customerPhone == old(customerPhone)
      ensures customerEmail == old(customerEmail) && notes == old(notes)
      ensures pickupDate == old(pickupDate) && deliveryDate == old(deliveryDate)
      ensures deliveryMethod == old(deliveryMethod)
    {
      if |items| > 1 {
        var newItems := RemoveAt(items, index);
        ItemsOkRemove(items, index);
        var total := TotalOf(newItems);
        items := newItems;
        totalAmount := total;
        serviceType := DetermineServiceType(newItems);
      }
    }

    /**
     * The checks of `handleSubmit`, run in order with an early return at the
     * first that fails: trimmed name present, 10 or 11 phone digits, a
     * well-formed email when one is given, some named item, no unnamed item,
     * the chosen method's date not in the past, that date present.
     */
    method Check(today: string) returns (failure: Option<SubmitError>)
      ensures failure == FirstFailure(customerName, customerPhone, customerEmail, items,
                                      deliveryMethod, pickupDate, deliveryDate, today)
    {
      var trimmedName := Trim(customerName);
      if trimmedName == [] {
        return Some(NameRequired);
      }
      var phoneDigits := DigitsOnly(customerPhone);
      if |phoneDigits| < 10 || |phoneDigits| > 11 {
        return Some(PhoneInvalid);
      }
      if customerEmail != [] && !IsEmail(Trim(customerEmail)) {
        return Some(EmailInvalid);
      }
      if !HasNamedItem(items) {
        return Some(ItemsRequired);
      }
      if HasUnnamedItem(items) {
        return Some(ItemNameRequired);
      }
      failure := CheckDates(today);
    }

    /** The date checks that close `Check`: a chosen date in the past, then a missing one. */
    method CheckDates(today: string) returns (failure: Option<SubmitError>)
      ensures failure ==
        if ChosenDateInPast(deliveryMethod, pickupDate, deliveryDate, today) then Some(DateInPast(deliveryMethod))
        else if ChosenDateMissing(deliveryMethod, pickupDate, deliveryDate) then Some(DateRequired(deliveryMethod))
        else None
    {
      if deliveryMethod == Pickup && pickupDate != [] {
        if StrLess(pickupDate, today) {
          return Some(DateInPast(Pickup));
        }
      } else if deliveryMethod == Deliver && deliveryDate != [] {
        if StrLess(deliveryDate, today) {
          return Some(DateInPast(Deliver));
        }
      }
      if deliveryMethod == Pickup {
        if pickupDate == [] {
          return Some(DateRequired(Pickup));
        }
      } else if deliveryMethod == Deliver {
        if deliveryDate == [] {
          return Some(DateRequired(Deliver));
        }
      }
      return None;
    }

    /** Empties the date of the method not chosen. */
    method ClearOtherDate()
      requires Valid()
      modifies this
      ensures Valid()
      ensures customerName == old(customerName) && customerPhone == old(customerPhone)
      ensures customerEmail == old(customerEmail) && notes == old(notes) && items == old(items)
      ensures totalAmount == old(totalAmount) && serviceType == old(serviceType)
      ensures deliveryMethod == old(deliveryMethod)
      ensures pickupDate == if deliveryMethod == Pickup then old(pickupDate) else []
      ensures deliveryDate == if deliveryMethod == Deliver then old(deliveryDate) else []
    {
      if deliveryMethod == Pickup {
        deliveryDate := [];
      } else {
        pickupDate := [];
      }
    }

    /**
     * `handleSubmit`: rejects with the first failing check; on acceptance
     * clears, in the form itself, the date of the method not chosen, and
     * returns the normalised order: trimmed name and email, digits-only
     * phone, trimmed item names, and no order-level service type.
     */
    method Submit(today: string) returns (r: Result<Payload, SubmitError>)
      requires Valid()
      modifies this
      ensures Valid()
      ensures customerName == old(customerName) && customerPhone == old(customerPhone)
      ensures customerEmail == old(customerEmail) && notes == old(notes) && items == old(items)
      ensures totalAmount == old(totalAmount) && serviceType == old(serviceType)
      ensures deliveryMethod == old(deliveryMethod)
      ensures var failure := FirstFailure(customerName, customerPhone, customerEmail, items,
                                          deliveryMethod, old(pickupDate), old(deliveryDate), today);
        (r.Failure? <==> failure.Some?) && (r.Failure? ==> r.error == failure.value)
      // a rejection leaves the dates alone
      ensures r.Failure? ==> pickupDate == old(pickupDate) && deliveryDate == old(deliveryDate)
      // an accepted order: the form keeps only the chosen method's date
      ensures r.Success? ==>
        r.value == Accepted(customerName, customerPhone, customerEmail, items, totalAmount, notes,
                            deliveryMethod, old(pickupDate), old(deliveryDate))
        && pickupDate == r.value.pickupDate && deliveryDate == r.value.deliveryDate
    {
      var failure := Check(today);
      if failure.Some? {
        return Failure(failure.value);
      }
      var p := Accepted(customerName, customerPhone, customerEmail, items, totalAmount, notes,
                        deliveryMethod, pickupDate, deliveryDate);
      ClearOtherDate();
      // "Delivery date must be after pickup date": one of the two dates is now empty.
      if pickupDate != [] && deliveryDate != [] && !StrLess(pickupDate, deliveryDate) {
        assert false;
      }
      r := Success(p);
    }
  }
}
