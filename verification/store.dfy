/**
 The `refresh_tokens` table as a sequence of rows, and the two queries the rotation
 protocol issues against it: the select of one user's rows and the delete by hash.
 */
module TokenStore {

  /** One row: the owner, the bcrypt hash of a refresh token and the address it was issued to. */
  datatype Record = Record(userId: string, tokenHash: string, ip: string)

  type Store = seq<Record>

  /** `SELECT token_hash, ip_address FROM refresh_tokens WHERE user_id = $1`, in table order. */
  function RecordsOf(store: Store, user: string): (rows: seq<Record>)
    ensures forall r :: r in rows <==> r in store && r.userId == user
    ensures forall i :: 0 <= i < |rows| ==> rows[i].userId == user
    ensures |rows| <= |store|
  {
    if |store| == 0 then []
    else if store[0].userId == user then [store[0]] + RecordsOf(store[1..], user)
    else RecordsOf(store[1..], user)
  }

  /** The select returns every row of the user as often as it occurs in the table, and no other row. */
  lemma {:induction false} RecordsOfMultiplicity(store: Store, user: string)
    ensures forall r: Record :: multiset(RecordsOf(store, user))[r] == if r.userId == user then multiset(store)[r] else 0
  {
    if |store| > 0 {
      RecordsOfMultiplicity(store[1..], user);
      assert store == [store[0]] + store[1..];
    }
  }

  /** `DELETE FROM refresh_tokens WHERE token_hash = $1`: every row with that hash goes, whoever owns it. */
  function Without(store: Store, hash: string): (rest: Store)
    ensures forall r :: r in rest <==> r in store && r.tokenHash != hash
    ensures forall r: Record :: r.tokenHash != hash ==> multiset(rest)[r] == multiset(store)[r]
    ensures |rest| <= |store|
  {
    if |store| == 0 then []
    else
      assert store == [store[0]] + store[1..];
      if store[0].tokenHash == hash then Without(store[1..], hash)
      else [store[0]] + Without(store[1..], hash)
  }
}
