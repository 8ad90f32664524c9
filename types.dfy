/** The records of the shared-expense session (src/App.tsx, lines 5-22). */
module Types {

  datatype Option<T> = None | Some(value: T)

  /** A participant: `{ id, name }`. Ids come from the clock in the app; here they are inputs. */
  datatype Friend = Friend(id: int, name: string)

  /** One entry of an expense's `splits` object: a friend id and the percentage charged to that friend. */
  datatype Share = Share(friend: int, pct: real)

  /** A recorded payment. Money is an exact `real`. */
  datatype Expense = Expense(id: int, description: string, amount: real, paidBy: int, splits: seq<Share>)

  /** One transfer instruction: `from` pays `to` the (rounded) `amount`. */
  datatype Settlement = Settlement(from: int, to: int, amount: real)

  /** One `[id, balance]` pair of the balances dictionary. */
  datatype Entry = Entry(id: int, bal: real)

  /** The two lists the app keeps in its component state. */
  datatype Session = Session(friends: seq<Friend>, expenses: seq<Expense>)

  /** The sum of the percentages of a split (the `reduce` of line 60). */
  function SplitTotal(splits: seq<Share>): real
  {
    if splits == [] then 0.0 else splits[0].pct + SplitTotal(splits[1..])
  }

  /** The ids of the roster. */
  function RosterIds(friends: seq<Friend>): set<int>
  {
    set f | f in friends :: f.id
  }
}
