/** The expiring-items card (src/components/dashboard/ExpiringItems.tsx): each
    listed item's clock icon is coloured by the whole days left before it
    expires, and an empty list shows a fixed message. */
module ExpiringItems {
  import opened Wrappers

  datatype Urgency = Red | Orange | Yellow

  /** Red within 30 days (and for anything already past), orange within 60,
      yellow beyond. */
  function Classify(days: int): (u: Urgency)
    ensures u == Red <==> days <= 30
    ensures u == Orange <==> 30 < days <= 60
    ensures u == Yellow <==> days > 60
  {
    if days <= 30 then Red else if days <= 60 then Orange else Yellow
  }

  /** Larger is more urgent. */
  function Rank(u: Urgency): nat {
    match u
    case Red => 2
    case Orange => 1
    case Yellow => 0
  }

  /** Fewer days left is never less urgent. */
  lemma ClassifyMonotone(d1: int, d2: int)
    requires d1 <= d2
    ensures Rank(Classify(d1)) >= Rank(Classify(d2))
  {
  }

  const EmptyMessage := "No items expiring within 3 months"

  /** A listed item: its name and the whole days until its expiry date. */
  datatype Listed = Listed(name: string, daysLeft: int)

  /** What the card renders: one coloured entry per item, and the message
      exactly when there are none. */
  datatype Card = Card(entries: seq<(string, Urgency)>, message: Option<string>)

  function Render(items: seq<Listed>): (c: Card)
    ensures |c.entries| == |items|
    ensures forall i :: 0 <= i < |items| ==>
              c.entries[i].0 == items[i].name && c.entries[i].1 == Classify(items[i].daysLeft)
    ensures c.message.Some? <==> items == []
    ensures c.message.Some? ==> c.message.value == EmptyMessage
  {
    Card(seq(|items|, i requires 0 <= i < |items| => (items[i].name, Classify(items[i].daysLeft))),
         if |items| == 0 then Some(EmptyMessage) else None)
  }

  /** The list is fetched in expiry order, so the colours run from most to
      least urgent down the card. */
  lemma ExpiryOrderedCardIsUrgencyOrdered(items: seq<Listed>)
    requires forall i, j :: 0 <= i < j < |items| ==> items[i].daysLeft <= items[j].daysLeft
    ensures forall i, j :: 0 <= i < j < |items| ==>
              Rank(Render(items).entries[i].1) >= Rank(Render(items).entries[j].1)
  {
    forall i, j | 0 <= i < j < |items|
      ensures Rank(Render(items).entries[i].1) >= Rank(Render(items).entries[j].1)
    {
      ClassifyMonotone(items[i].daysLeft, items[j].daysLeft);
    }
  }
}
