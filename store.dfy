/**
 * The four tables the onboarding action writes, and the two foreign
 * services it calls: the database's `insert(...).values(...).returning()`
 * and `createId()`.  Both are stand-ins: the database accepts or refuses
 * each table as fixed at construction (a refused insert returns no rows),
 * and the id supply hands out strings of growing length.
 */
module Store {
  import opened Optional

  datatype Table = Households | Areas | Chores | AreasToChores

  /**
   * The rows the action builds.  A link's ids are `undefined` in the
   * source when the lookup misses; that is `None` here.
   */
  datatype Row =
    | HouseholdRow(id: string, name: string)
    | AreaRow(id: string, name: string, householdId: string)
    | ChoreRow(id: string, name: string)
    | LinkRow(areaId: Option<string>, choreId: Option<string>)

  class Database {
    var households: seq<Row>
    var areas: seq<Row>
    var chores: seq<Row>
    var links: seq<Row>
    /** Every insert attempted, in order, refused or not. */
    var log: seq<Table>
    /** The tables whose inserts return no rows. */
    const refuses: set<Table>

    function Contents(t: Table): seq<Row>
      reads this
    {
      match t
      case Households => households
      case Areas => areas
      case Chores => chores
      case AreasToChores => links
    }

    constructor(refuses: set<Table>)
      ensures this.refuses == refuses
      ensures forall t :: Contents(t) == []
      ensures log == []
    {
      this.refuses := refuses;
      households, areas, chores, links := [], [], [], [];
      log := [];
    }

    /**
     * `db.insert(t).values(rows).returning()`: the rows come back when the
     * table accepts them, and nothing comes back (and nothing is stored)
     * when it refuses.
     */
    method Insert(t: Table, rows: seq<Row>) returns (returned: seq<Row>)
      modifies this
      ensures log == old(log) + [t]
      ensures t in refuses ==> returned == [] && forall u :: Contents(u) == old(Contents(u))
      ensures t !in refuses ==> returned == rows
      ensures t !in refuses ==> Contents(t) == old(Contents(t)) + rows
      ensures forall u :: u != t ==> Contents(u) == old(Contents(u))
    {
      log := log + [t];
      if t in refuses {
        returned := [];
      } else {
        returned := rows;
        match t
        case Households => households := households + rows;
        case Areas => areas := areas + rows;
        case Chores => chores := chores + rows;
        case AreasToChores => links := links + rows;
      }
    }
  }

  /** The `k`-th id handed out. */
  function Token(k: nat): (id: string)
    ensures |id| == k + 1
  {
    seq(k + 1, _ => 'c')
  }

  /** `n` ids handed out one after another, starting with the `from`-th. */
  function Tokens(from: nat, n: nat): (ids: seq<string>)
    ensures |ids| == n
    ensures forall i :: 0 <= i < n ==> ids[i] == Token(from + i)
  {
    seq(n, i requires 0 <= i < n => Token(from + i))
  }

  /** No id is handed out twice. */
  lemma TokensDistinct(from: nat, n: nat)
    ensures forall i, j :: 0 <= i < j < n ==> Tokens(from, n)[i] != Tokens(from, n)[j]
  {
    forall i, j | 0 <= i < j < n ensures Tokens(from, n)[i] != Tokens(from, n)[j] {
      assert |Tokens(from, n)[i]| != |Tokens(from, n)[j]|;
    }
  }

  /** Ids drawn in two runs are the ids drawn in one. */
  lemma TokensSplit(from: nat, a: nat, c: nat)
    ensures Tokens(from, a + c)[..a] == Tokens(from, a)
    ensures Tokens(from, a + c)[a..] == Tokens(from + a, c)
  {
  }

  /** `createId` as a supply of fresh strings. */
  class IdSupply {
    var count: nat

    constructor()
      ensures count == 0
    {
      count := 0;
    }

    /** `createId()`: the next id; every call returns one never returned before. */
    method CreateId() returns (id: string)
      modifies this
      ensures id == Token(old(count)) && count == old(count) + 1
    {
      id := Token(count);
      count := count + 1;
    }
  }
}
