/** Journalled commands: their well-formedness and identity. */
module Journal {
  import opened Models
  import opened Numeric
  import opened Texts

  datatype CommandType = CreateCommand | AmendCommand | CancelCommand

  datatype Command = Command(
    commandID: string,
    ticker: string,
    sequence: int,
    kind: CommandType,
    recordedAt: Time,
    marketConfigVersion: int,
    create: Option<CreateOrderRequest>,
    amend: Option<EditOrderRequest>,
    cancel: Option<CancelOrderRequest>)

  /** A digest is never blank; any other text may be. */
  predicate IsBlankID(id: OrderID) {
    id.Raw? && IsBlank(id.text)
  }

  predicate ValidCreate(req: CreateOrderRequest) {
    && !IsBlank(req.userID)
    && (if req.orderType == Limit then req.price > 0 else req.price == 0)
    && req.amount > 0
  }

  predicate ValidAmend(req: EditOrderRequest) {
    !IsBlankID(req.orderID) && req.price > 0 && (req.amount.Some? ==> req.amount.value > 0)
  }

  predicate ValidCancel(req: CancelOrderRequest) {
    !IsBlankID(req.orderID)
  }

  /** A command carries exactly the payload of its type, and the payload names the command. */
  predicate Validate(c: Command) {
    && c.commandID != "" && c.ticker != "" && c.marketConfigVersion >= 0
    && match c.kind
       case CreateCommand =>
         && c.create.Some? && c.amend.None? && c.cancel.None? && ValidCreate(c.create.value)
         && c.create.value.commandID == c.commandID && c.create.value.ticker == c.ticker
       case AmendCommand =>
         && c.amend.Some? && c.create.None? && c.cancel.None? && ValidAmend(c.amend.value)
         && c.amend.value.commandID == c.commandID && c.amend.value.ticker == c.ticker
       case CancelCommand =>
         && c.cancel.Some? && c.create.None? && c.amend.None? && ValidCancel(c.cancel.value)
         && c.cancel.value.commandID == c.commandID && c.cancel.value.ticker == c.ticker
  }

  function EffectiveConfigVersion(c: Command): int {
    if c.marketConfigVersion == 0 then DEFAULT_CONFIG_VERSION else c.marketConfigVersion
  }

  /** Two commands are the same request: everything but sequence and recorded time agrees. */
  predicate SamePayload(left: Command, right: Command) {
    && left.commandID == right.commandID && left.ticker == right.ticker && left.kind == right.kind
    && EffectiveConfigVersion(left) == EffectiveConfigVersion(right)
    && left.create == right.create && left.amend == right.amend && left.cancel == right.cancel
  }
}
