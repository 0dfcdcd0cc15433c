/**
 * The vendor's account-settings page: an eight-field form whose "save"
 * checks a requested password change, persists the five profile fields and
 * clears the three password fields.
 */
module AccountSettings {
  import opened Wrappers

  datatype Field =
    | BusinessName | OwnerName | Email | Phone | Address
    | CurrentPassword | NewPassword | ConfirmPassword

  /** The page's `formData`. */
  datatype FormData = FormData(
    businessName: string,
    ownerName: string,
    email: string,
    phone: string,
    address: string,
    currentPassword: string,
    newPassword: string,
    confirmPassword: string)

  /** The account record persisted by a save: the profile fields, no password. */
  datatype AccountRecord = AccountRecord(
    businessName: string,
    ownerName: string,
    email: string,
    phone: string,
    address: string)

  const MinPasswordLength: nat := 6
  const DefaultBusinessName: string := "My Business"

  /** The form as the page starts: every field empty. */
  const EmptyForm: FormData := FormData("", "", "", "", "", "", "", "")

  function Get(form: FormData, field: Field): string {
    match field
    case BusinessName => form.businessName
    case OwnerName => form.ownerName
    case Email => form.email
    case Phone => form.phone
    case Address => form.address
    case CurrentPassword => form.currentPassword
    case NewPassword => form.newPassword
    case ConfirmPassword => form.confirmPassword
  }

  predicate IsPasswordField(field: Field) {
    field == CurrentPassword || field == NewPassword || field == ConfirmPassword
  }

  /** `updateField(field, value)`: the form with `field` set to `value` and every other field kept. */
  function UpdateField(form: FormData, field: Field, value: string): (r: FormData)
    ensures Get(r, field) == value
    ensures forall other :: other != field ==> Get(r, other) == Get(form, other)
  {
    match field
    case BusinessName => form.(businessName := value)
    case OwnerName => form.(ownerName := value)
    case Email => form.(email := value)
    case Phone => form.(phone := value)
    case Address => form.(address := value)
    case CurrentPassword => form.(currentPassword := value)
    case NewPassword => form.(newPassword := value)
    case ConfirmPassword => form.(confirmPassword := value)
  }

  /** Why a save was refused; the page shows each as an alert. */
  datatype SaveError = PasswordTooShort | PasswordMismatch

  /**
   * The password-change check of `handleSave`: only when a new password is
   * typed, first its length, then its agreement with the confirmation.
   */
  function CheckPasswordChange(form: FormData): Option<SaveError> {
    if form.newPassword != "" then
      if |form.newPassword| < MinPasswordLength then Some(PasswordTooShort)
      else if form.newPassword != form.confirmPassword then Some(PasswordMismatch)
      else None
    else None
  }

  /** A save is allowed exactly when no new password is typed, or it is long enough and confirmed. */
  lemma CheckPasswordChangeAccepts(form: FormData)
    ensures CheckPasswordChange(form).None? <==>
      form.newPassword == "" || (|form.newPassword| >= MinPasswordLength && form.newPassword == form.confirmPassword)
  {
  }

  /** A short new password is reported as short whatever the confirmation holds. */
  lemma LengthCheckedFirst(form: FormData, confirm: string)
    requires 0 < |form.newPassword| < MinPasswordLength
    ensures CheckPasswordChange(form) == Some(PasswordTooShort)
    ensures CheckPasswordChange(UpdateField(form, ConfirmPassword, confirm)) == Some(PasswordTooShort)
  {
  }

  /**
   * The profile fields of the form, as persisted. The record alone is enough
   * to rebuild the form, less its passwords, on a fresh page.
   */
  function Profile(form: FormData): (record: AccountRecord)
    ensures Restore(EmptyForm, None, Some(record)).0 == ClearPasswords(form)
  {
    AccountRecord(form.businessName, form.ownerName, form.email, form.phone, form.address)
  }

  /** The form after a successful save: the password fields emptied. */
  function ClearPasswords(form: FormData): (r: FormData)
    ensures forall f :: IsPasswordField(f) ==> Get(r, f) == ""
    ensures forall f :: !IsPasswordField(f) ==> Get(r, f) == Get(form, f)
  {
    form.(currentPassword := "", newPassword := "", confirmPassword := "")
  }

  /**
   * The page's load effect over what a save persists: a non-empty stored
   * business name becomes the displayed name and the form's business name;
   * a stored record then overrides the five profile fields.
   */
  function Restore(form: FormData, storedName: Option<string>, stored: Option<AccountRecord>): (FormData, string) {
    var (form1, shown) :=
      if storedName.Some? && storedName.value != "" then (form.(businessName := storedName.value), storedName.value)
      else (form, DefaultBusinessName);
    var form2 :=
      if stored.Some? then
        form1.(businessName := stored.value.businessName, ownerName := stored.value.ownerName,
               email := stored.value.email, phone := stored.value.phone, address := stored.value.address)
      else form1;
    (form2, shown)
  }

  /**
   * Reopening the page after a save shows the saved profile with empty
   * password fields, and the saved business name unless it was empty.
   */
  lemma SaveThenRestore(form: FormData)
    ensures Restore(EmptyForm, Some(form.businessName), Some(Profile(form))).0 == ClearPasswords(form)
    ensures Restore(EmptyForm, Some(form.businessName), Some(Profile(form))).1 ==
      if form.businessName != "" then form.businessName else DefaultBusinessName
  {
  }

  /** The page's state that saving touches, and the persisted store. */
  class AccountSettingsPage {
    var formData: FormData
    var businessName: string
    var isSaving: bool
    var saveSuccess: bool
    /** The persisted business name (`vendor_business_name`), if any. */
    var storedBusinessName: Option<string>
    /** The persisted account record (`vendor_account_data`), if any. */
    var storedAccount: Option<AccountRecord>

    constructor (storedName: Option<string>, stored: Option<AccountRecord>)
      ensures (formData, businessName) == Restore(EmptyForm, storedName, stored)
      ensures !isSaving && !saveSuccess
      ensures storedBusinessName == storedName && storedAccount == stored
    {
      var (form, shown) := Restore(EmptyForm, storedName, stored);
      formData, businessName := form, shown;
      isSaving, saveSuccess := false, false;
      storedBusinessName, storedAccount := storedName, stored;
    }

    /** `updateField`. */
    method Edit(field: Field, value: string)
      modifies this
      ensures formData == UpdateField(old(formData), field, value)
      ensures businessName == old(businessName) && isSaving == old(isSaving) && saveSuccess == old(saveSuccess)
      ensures storedBusinessName == old(storedBusinessName) && storedAccount == old(storedAccount)
    {
      formData := UpdateField(formData, field, value);
    }

    /**
     * `handleSave`. A refused password change changes nothing but leaves
     * `isSaving` false; otherwise the profile is persisted, shown and the
     * password fields are cleared.
     */
    method Save() returns (error: Option<SaveError>)
      modifies this
      ensures error == CheckPasswordChange(old(formData))
      ensures !isSaving
      ensures error.Some? ==>
        && formData == old(formData) && businessName == old(businessName)
        && saveSuccess == old(saveSuccess)
        && storedBusinessName == old(storedBusinessName) && storedAccount == old(storedAccount)
      ensures error.None? ==>
        && storedBusinessName == Some(old(formData).businessName)
        && storedAccount == Some(Profile(old(formData)))
        && businessName == old(formData).businessName
        && saveSuccess
        && formData == ClearPasswords(old(formData))
    {
      isSaving := true;
      if formData.newPassword != "" {
        if |formData.newPassword| < MinPasswordLength {
          isSaving := false;
          return Some(PasswordTooShort);
        }
        if formData.newPassword != formData.confirmPassword {
          isSaving := false;
          return Some(PasswordMismatch);
        }
      }
      storedBusinessName := Some(formData.businessName);
      storedAccount := Some(Profile(formData));
      businessName := formData.businessName;
      saveSuccess := true;
      isSaving := false;
      formData := ClearPasswords(formData);
      error := None;
    }

    /**
     * `handleLogout`'s store write: the persisted business name is removed;
     * the persisted account record and the page state are kept.
     */
    method Logout()
      modifies this
      ensures storedBusinessName == None && storedAccount == old(storedAccount)
      ensures formData == old(formData) && businessName == old(businessName)
      ensures isSaving == old(isSaving) && saveSuccess == old(saveSuccess)
    {
      storedBusinessName := None;
    }
  }
}
