/** What conversations and principals are, for the parts that read it. */
module Conversations {

  datatype ConversationType =
    | INTERNAL_DIRECT | INTERNAL_GROUP | INTERNAL_ANNOUNCEMENT | INTERNAL_CHANNEL | CUSTOMER_CONVERSATION

  datatype PrincipalKind = EMPLOYEE | CUSTOMER | SYSTEM | AI

  /** The types with no customer and no lifecycle; whatever is not listed is not internal. */
  predicate IsInternal(kind: ConversationType) {
    kind in {INTERNAL_DIRECT, INTERNAL_GROUP, INTERNAL_ANNOUNCEMENT, INTERNAL_CHANNEL}
  }
}
